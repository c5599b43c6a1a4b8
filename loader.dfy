/**
 * The TOML configuration loader's pure core: the checks a merged
 * configuration must pass, the minimal TOML writer, the placeholder
 * substitution in the output path, and the configuration built from
 * command-line arguments. Files, the clock and directory creation are
 * outside: the writer returns the text it would write, and the timestamp
 * is a parameter. The recursive merge is `Values.Merge`.
 */
module ConfigLoader {
  import opened Wrappers
  import opened Values
  import opened PyText
  import Transcript
  import Paths
  import Seqs

  /** The exceptions the loader lets escape. */
  datatype ConfigError =
    | ValueError(msg: string)
    | TypeError(msg: string)
    | KeyError(key: string)
      // the TypeError or AttributeError Python raises on a non-dict section
    | NotADict(key: string)
      // the TypeError or AttributeError Python raises on a non-string path
    | NotAString(key: string)

  datatype Outcome<T> = Ok(value: T) | Raised(err: ConfigError)

  // ------------------------------------------------------------------
  // _validate

  const Languages: set<string> := {"auto", "en", "zh"}
  const ModelSizes: set<string> := {"sm", "md", "lg"}

  /** Lists and dictionaries cannot be looked up in a set. */
  predicate Unhashable(v: Value) {
    v.VList? || v.VDict?
  }

  function UnhashableError(v: Value): ConfigError
    requires Unhashable(v)
  {
    TypeError("unhashable type: '" + (if v.VList? then "list" else "dict") + "'")
  }

  /** `v in choices` for a hashable value: only a string can equal a string. */
  predicate OneOf(v: Value, choices: set<string>) {
    v.VStr? && v.s in choices
  }

  /** `isinstance(v, int) and v > 0`, where `True` counts as 1 and `False` as 0. */
  predicate PositiveInt(v: Value) {
    IsInstance(v, TInt) && (if v.VBool? then v.b else v.i > 0)
  }

  /** What an accepted configuration looks like, stated value by value. */
  predicate Acceptable(cfg: Dict) {
    Get(cfg, "language", VStr("en")) in {VStr("auto"), VStr("en"), VStr("zh")}
    && Get(cfg, "model_size", VStr("md")) in {VStr("sm"), VStr("md"), VStr("lg")}
    && (Get(cfg, "max_width", VInt(78)) == VBool(true)
        || (Get(cfg, "max_width", VInt(78)).VInt? && Get(cfg, "max_width", VInt(78)).i >= 1))
    && "paths" in cfg && cfg["paths"].VDict?
  }

  /** `_validate`: the first failed check, in the order the source makes them. */
  function Validate(cfg: Dict): (r: Option<ConfigError>)
    ensures r.None? <==> Acceptable(cfg)
    ensures r.Some? && r.value.TypeError? ==>
              Unhashable(Get(cfg, "language", VStr("en"))) || Unhashable(Get(cfg, "model_size", VStr("md")))
    ensures r.Some? ==> r.value.ValueError? || r.value.TypeError?
  {
    var language := Get(cfg, "language", VStr("en"));
    var modelSize := Get(cfg, "model_size", VStr("md"));
    var maxWidth := Get(cfg, "max_width", VInt(78));
    if Unhashable(language) then Some(UnhashableError(language))
    else if !OneOf(language, Languages) then Some(ValueError("language must be one of: auto, en, zh"))
    else if Unhashable(modelSize) then Some(UnhashableError(modelSize))
    else if !OneOf(modelSize, ModelSizes) then Some(ValueError("model_size must be one of: sm, md, lg"))
    else if !PositiveInt(maxWidth) then Some(ValueError("max_width must be a positive integer"))
    else if !("paths" in cfg && cfg["paths"].VDict?) then Some(ValueError("[paths] section is required in configuration"))
    else None
  }

  /** Only a `[paths]` table is required: every other key has an accepted default. */
  lemma DefaultsAccepted(paths: Dict)
    ensures Validate(map["paths" := VDict(paths)]) == None
  {
  }

  /** Without a `[paths]` table, an otherwise valid configuration is refused with that message. */
  lemma MissingPathsRefused(cfg: Dict)
    requires "paths" !in cfg
    requires OneOf(Get(cfg, "language", VStr("en")), Languages)
    requires OneOf(Get(cfg, "model_size", VStr("md")), ModelSizes)
    requires PositiveInt(Get(cfg, "max_width", VInt(78)))
    ensures Validate(cfg) == Some(ValueError("[paths] section is required in configuration"))
  {
  }

  // ------------------------------------------------------------------
  // _dump_toml: _format_value

  /** `str(i)` for an integer */
  function IntStr(i: int): string {
    if i < 0 then "-" + Transcript.Decimal(-i) else Transcript.Decimal(i)
  }

  /** `s.replace(c, rep)` for a one-character pattern, character by character. */
  function Subst(s: string, c: char, rep: string): string {
    if s == [] then [] else (if s[0] == c then rep else [s[0]]) + Subst(s[1..], c, rep)
  }

  lemma {:induction false} SubstConcat(a: string, b: string, c: char, rep: string)
    ensures Subst(a + b, c, rep) == Subst(a, c, rep) + Subst(b, c, rep)
    decreases |a|
  {
    if a != [] {
      assert (a + b)[1..] == a[1..] + b;
      SubstConcat(a[1..], b, c, rep);
    } else {
      assert a + b == b;
    }
  }

  /** Replacing a one-character pattern is substituting each occurrence. */
  lemma {:induction false} ReplaceCharIsSubst(s: string, c: char, rep: string)
    ensures ReplaceAll(s, [c], rep) == Subst(s, c, rep)
    decreases |s|
  {
    if s != [] {
      ReplaceCharIsSubst(s[1..], c, rep);
      assert s[..1] == [c] <==> s[0] == c;
    }
  }

  /** The three replacements of `_format_value`, in the order it makes them. */
  function Escape(s: string): string {
    ReplaceAll(ReplaceAll(ReplaceAll(s, "\\", "\\\\"), "\n", "\\n"), "\"", "\\\"")
  }

  /** The escape of one character on its own. */
  function EscapeChar(c: char): string {
    if c == '\\' then "\\\\" else if c == '\n' then "\\n" else if c == '"' then "\\\"" else [c]
  }

  function EscapeChars(s: string): string {
    if s == [] then [] else EscapeChar(s[0]) + EscapeChars(s[1..])
  }

  function Substituted(s: string): string {
    Subst(Subst(Subst(s, '\\', "\\\\"), '\n', "\\n"), '"', "\\\"")
  }

  lemma SubstOne(x: char, c: char, rep: string)
    ensures Subst([x], c, rep) == if x == c then rep else [x]
  {
    assert [x][1..] == [];
  }

  lemma SubstitutedChar(c: char)
    ensures Substituted([c]) == EscapeChar(c)
  {
    SubstOne(c, '\\', "\\\\");
    var a := Subst([c], '\\', "\\\\");
    if c == '\\' {
      SubstConcat([c], [c], '\n', "\\n");
      SubstOne(c, '\n', "\\n");
      assert [c] + [c] == a;
      SubstConcat([c], [c], '"', "\\\"");
      SubstOne(c, '"', "\\\"");
    } else {
      SubstOne(c, '\n', "\\n");
      if c == '\n' {
        var b: string := "\\n";
        assert b == ['\\'] + ['n'];
        SubstConcat(['\\'], ['n'], '"', "\\\"");
        SubstOne('\\', '"', "\\\"");
        SubstOne('n', '"', "\\\"");
      } else {
        SubstOne(c, '"', "\\\"");
      }
    }
  }

  lemma {:induction false} SubstitutedIsCharwise(s: string)
    ensures Substituted(s) == EscapeChars(s)
    decreases |s|
  {
    if s != [] {
      var x, t := s[0], s[1..];
      assert s == [x] + t;
      var a1, b1 := Subst([x], '\\', "\\\\"), Subst(t, '\\', "\\\\");
      SubstConcat([x], t, '\\', "\\\\");
      var a2, b2 := Subst(a1, '\n', "\\n"), Subst(b1, '\n', "\\n");
      SubstConcat(a1, b1, '\n', "\\n");
      SubstConcat(a2, b2, '"', "\\\"");
      SubstitutedChar(x);
      SubstitutedIsCharwise(t);
    }
  }

  /** The three sequential replacements escape each character independently. */
  lemma EscapeIsCharwise(s: string)
    ensures Escape(s) == EscapeChars(s)
  {
    var a := ReplaceAll(s, "\\", "\\\\");
    ReplaceCharIsSubst(s, '\\', "\\\\");
    var b := ReplaceAll(a, "\n", "\\n");
    ReplaceCharIsSubst(a, '\n', "\\n");
    ReplaceCharIsSubst(b, '"', "\\\"");
    SubstitutedIsCharwise(s);
  }

  /** A TOML basic-string reader for the three escapes the writer produces. */
  function Unescape(s: string): string {
    if s == [] then []
    else if s[0] == '\\' && |s| >= 2 then (if s[1] == 'n' then "\n" else [s[1]]) + Unescape(s[2..])
    else [s[0]] + Unescape(s[1..])
  }

  lemma UnescapeStep(c: char, rest: string)
    ensures Unescape(EscapeChar(c) + rest) == [c] + Unescape(rest)
  {
    var e := EscapeChar(c) + rest;
    if c == '\\' || c == '\n' || c == '"' {
      assert e[2..] == rest;
    } else {
      assert e[1..] == rest;
    }
  }

  /** Reading an escaped string back gives the original. */
  lemma {:induction false} UnescapeEscape(s: string)
    ensures Unescape(Escape(s)) == s
    decreases |s|
  {
    EscapeIsCharwise(s);
    if s != [] {
      UnescapeStep(s[0], EscapeChars(s[1..]));
      UnescapeEscape(s[1..]);
      EscapeIsCharwise(s[1..]);
    }
  }

  /** Escaping is injective: distinct strings are written distinctly. */
  lemma EscapeInjective(s: string, t: string)
    requires Escape(s) == Escape(t)
    ensures s == t
  {
    UnescapeEscape(s);
    UnescapeEscape(t);
  }

  /**
   * `_format_value`. `strOf` is Python's `str()` on floats, lists and
   * dictionaries, whose spelling the model does not fix.
   */
  function FormatValue(v: Value, strOf: Value -> string): string {
    match v
    case VBool(b) => if b then "true" else "false"
    case VInt(i) => IntStr(i)
    case VFloat(_) => strOf(v)
    case VNone => "\"\""
    case VStr(s) => "\"" + Escape(s) + "\""
    case VList(_) => "\"" + Escape(strOf(v)) + "\""
    case VDict(_) => "\"" + Escape(strOf(v)) + "\""
  }

  /** A reader for the booleans, integers and strings the writer produces. */
  function ReadScalar(t: string): Option<Value> {
    if t == "true" then Some(VBool(true))
    else if t == "false" then Some(VBool(false))
    else if |t| >= 2 && t[0] == '"' && t[|t| - 1] == '"' then Some(VStr(Unescape(t[1..|t| - 1])))
    else if |t| >= 2 && t[0] == '-' && Transcript.AllDigits(t[1..]) then Some(VInt(-(Transcript.Value(t[1..]) as int)))
    else if |t| >= 1 && Transcript.AllDigits(t) then Some(VInt(Transcript.Value(t)))
    else None
  }

  lemma ReadDecimal(n: nat)
    ensures ReadScalar(Transcript.Decimal(n)) == Some(VInt(n))
  {
    var d := Transcript.Decimal(n);
    Transcript.ValueOfDecimal(n);
    assert IsDigit(d[0]);
    assert d != "true" && d != "false" && d[0] != '"' && d[0] != '-';
  }

  lemma ReadNegative(n: nat)
    requires n > 0
    ensures ReadScalar("-" + Transcript.Decimal(n)) == Some(VInt(-(n as int)))
  {
    var d := Transcript.Decimal(n);
    var t := "-" + d;
    Transcript.ValueOfDecimal(n);
    assert t[1..] == d;
    assert t[0] == '-' && t != "true" && t != "false";
  }

  lemma ReadQuoted(s: string)
    ensures ReadScalar("\"" + Escape(s) + "\"") == Some(VStr(s))
  {
    var t := "\"" + Escape(s) + "\"";
    assert t[0] == '"' && t != "true" && t != "false";
    assert t[1..|t| - 1] == Escape(s);
    UnescapeEscape(s);
  }

  /** Booleans, integers and strings read back as themselves. */
  lemma FormatReadsBack(v: Value, strOf: Value -> string)
    requires v.VBool? || v.VInt? || v.VStr?
    ensures ReadScalar(FormatValue(v, strOf)) == Some(v)
  {
    match v
    case VBool(_) =>
    case VInt(i) =>
      if i < 0 {
        ReadNegative(-i);
      } else {
        ReadDecimal(i);
      }
    case VStr(s) =>
      ReadQuoted(s);
  }

  /** `None` is written as an empty string, so it reads back as `""`. */
  lemma NoneReadsAsEmptyString(strOf: Value -> string)
    ensures ReadScalar(FormatValue(VNone, strOf)) == Some(VStr(""))
  {
    assert "\"\""[1..1] == "";
  }

  // ------------------------------------------------------------------
  // _dump_toml: the lines

  /** A top-level value that is not a table. */
  type Scalar = v: Value | !v.VDict? witness VNone

  /**
   * A top-level entry, in the dictionary's insertion order: a scalar, or a
   * table whose own entries are also in insertion order.
   */
  datatype Node = Leaf(v: Scalar) | Table(entries: seq<(string, Value)>)

  function Line(k: string, v: Value, strOf: Value -> string): string {
    k + " = " + FormatValue(v, strOf)
  }

  /** the `top_keys` dictionary */
  function TopOf(data: seq<(string, Node)>): (r: seq<(string, Value)>)
    ensures |r| <= |data|
  {
    if data == [] then []
    else
      var last := data[|data| - 1];
      TopOf(data[..|data| - 1]) + (if last.1.Leaf? then [(last.0, last.1.v)] else [])
  }

  /** the `table_keys` dictionary */
  function TablesOf(data: seq<(string, Node)>): (r: seq<(string, seq<(string, Value)>)>)
    ensures |r| <= |data|
  {
    if data == [] then []
    else
      var last := data[|data| - 1];
      TablesOf(data[..|data| - 1]) + (if last.1.Table? then [(last.0, last.1.entries)] else [])
  }

  function EntryLines(entries: seq<(string, Value)>, strOf: Value -> string): seq<string> {
    if entries == [] then []
    else
      var e := entries[|entries| - 1];
      EntryLines(entries[..|entries| - 1], strOf) + [Line(e.0, e.1, strOf)]
  }

  /** One `[name]` block: the header, one line per entry, a blank line. */
  function Block(name: string, entries: seq<(string, Value)>, strOf: Value -> string): seq<string> {
    ["[" + name + "]"] + EntryLines(entries, strOf) + [""]
  }

  function TableLines(tables: seq<(string, seq<(string, Value)>)>, strOf: Value -> string): seq<string> {
    if tables == [] then []
    else
      var t := tables[|tables| - 1];
      TableLines(tables[..|tables| - 1], strOf) + Block(t.0, t.1, strOf)
  }

  /** The scalars, a blank line when there are both kinds, then the tables. */
  function TomlLines(data: seq<(string, Node)>, strOf: Value -> string): seq<string> {
    var top, tables := TopOf(data), TablesOf(data);
    EntryLines(top, strOf) + (if top != [] && tables != [] then [""] else []) + TableLines(tables, strOf)
  }

  /** The text `_dump_toml` writes. */
  function TomlText(data: seq<(string, Node)>, strOf: Value -> string): string {
    RStrip(Join(TomlLines(data, strOf), "\n")) + "\n"
  }

  /** Every entry gets its own line, in order. */
  lemma {:induction false} EntryLinesInOrder(entries: seq<(string, Value)>, strOf: Value -> string)
    ensures |EntryLines(entries, strOf)| == |entries|
    ensures forall i :: 0 <= i < |entries| ==>
              EntryLines(entries, strOf)[i] == Line(entries[i].0, entries[i].1, strOf)
    decreases |entries|
  {
    if entries != [] {
      var init, e := entries[..|entries| - 1], entries[|entries| - 1];
      EntryLinesInOrder(init, strOf);
      var before := EntryLines(init, strOf);
      var r := EntryLines(entries, strOf);
      var last := Line(e.0, e.1, strOf);
      assert r == before + [last];
      Seqs.SnocKeeps(before, last);
      forall i | 0 <= i < |init| ensures r[i] == Line(entries[i].0, entries[i].1, strOf) {
        assert init[i] == entries[i];
      }
      assert r[|init|] == last;
    }
  }

  /** The two dictionaries split the entries between them, and a kind is empty exactly when no entry has it. */
  lemma {:induction false} SplitByKind(data: seq<(string, Node)>)
    ensures |TopOf(data)| + |TablesOf(data)| == |data|
    ensures TopOf(data) == [] <==> forall i :: 0 <= i < |data| ==> data[i].1.Table?
    ensures TablesOf(data) == [] <==> forall i :: 0 <= i < |data| ==> data[i].1.Leaf?
    decreases |data|
  {
    if data != [] {
      var init := data[..|data| - 1];
      SplitByKind(init);
      assert forall i :: 0 <= i < |init| ==> init[i] == data[i];
    }
  }

  /** Each table contributes its header, its entries and one blank line. */
  lemma {:induction false} TableLinesLength(tables: seq<(string, seq<(string, Value)>)>, strOf: Value -> string)
    ensures |TableLines(tables, strOf)| >= 2 * |tables|
    ensures tables != [] ==> TableLines(tables, strOf)[|TableLines(tables, strOf)| - 1] == ""
    decreases |tables|
  {
    if tables != [] {
      var t := tables[|tables| - 1];
      TableLinesLength(tables[..|tables| - 1], strOf);
      EntryLinesInOrder(t.1, strOf);
    }
  }

  /** The written text ends with exactly one newline. */
  lemma OneTrailingNewline(data: seq<(string, Node)>, strOf: Value -> string)
    ensures var c := TomlText(data, strOf);
      |c| >= 1 && c[|c| - 1] == '\n' && (|c| == 1 || c[|c| - 2] != '\n')
  {
    var body := RStrip(Join(TomlLines(data, strOf), "\n"));
    var c := body + "\n";
    if |c| > 1 {
      assert c[|c| - 2] == body[|body| - 1];
      assert !IsSpace(body[|body| - 1]);
    }
  }

  /** The two dictionary comprehensions that split the entries by kind. */
  method SplitKinds(data: seq<(string, Node)>) returns (top: seq<(string, Value)>, tables: seq<(string, seq<(string, Value)>)>)
    ensures top == TopOf(data) && tables == TablesOf(data)
  {
    top, tables := [], [];
    for i := 0 to |data|
      invariant top == TopOf(data[..i])
      invariant tables == TablesOf(data[..i])
    {
      assert data[..i + 1][..i] == data[..i];
      match data[i].1
      case Leaf(v) => top := top + [(data[i].0, v)];
      case Table(es) => tables := tables + [(data[i].0, es)];
    }
    assert data[..|data|] == data;
  }

  /** Appends one `k = v` line per entry. */
  method AppendEntries(lines: seq<string>, entries: seq<(string, Value)>, strOf: Value -> string) returns (out: seq<string>)
    ensures out == lines + EntryLines(entries, strOf)
  {
    out := lines;
    for j := 0 to |entries|
      invariant out == lines + EntryLines(entries[..j], strOf)
    {
      assert entries[..j + 1][..j] == entries[..j];
      out := out + [Line(entries[j].0, entries[j].1, strOf)];
    }
    assert entries[..|entries|] == entries;
  }

  lemma TableLinesSnoc(lines: seq<string>, tables: seq<(string, seq<(string, Value)>)>, t: nat, strOf: Value -> string)
    requires t < |tables|
    ensures lines + TableLines(tables[..t + 1], strOf)
            == (lines + TableLines(tables[..t], strOf)) + Block(tables[t].0, tables[t].1, strOf)
  {
    assert tables[..t + 1][..t] == tables[..t];
  }

  /** Appends the header, the entry lines and the blank line of one table. */
  method AppendBlock(lines: seq<string>, name: string, entries: seq<(string, Value)>, strOf: Value -> string)
    returns (out: seq<string>)
    ensures out == lines + Block(name, entries, strOf)
  {
    out := lines + ["[" + name + "]"];
    out := AppendEntries(out, entries, strOf);
    out := out + [""];
  }

  /** Appends one block per table. */
  method AppendTables(lines: seq<string>, tables: seq<(string, seq<(string, Value)>)>, strOf: Value -> string)
    returns (out: seq<string>)
    ensures out == lines + TableLines(tables, strOf)
  {
    out := lines;
    for t := 0 to |tables|
      invariant out == lines + TableLines(tables[..t], strOf)
    {
      out := AppendBlock(out, tables[t].0, tables[t].1, strOf);
      TableLinesSnoc(lines, tables, t, strOf);
    }
    assert tables[..|tables|] == tables;
  }

  /** `_dump_toml`, returning the text it writes. */
  method DumpToml(data: seq<(string, Node)>, strOf: Value -> string) returns (content: string)
    ensures content == TomlText(data, strOf)
    ensures |content| >= 1 && content[|content| - 1] == '\n'
  {
    var top, tables := SplitKinds(data);
    var lines := AppendEntries([], top, strOf);
    ghost var sep: seq<string> := if top != [] && tables != [] then [""] else [];
    assert [] + EntryLines(top, strOf) + sep == EntryLines(top, strOf) + sep;
    if |top| > 0 && |tables| > 0 {
      lines := lines + [""];
    } else {
      assert lines + sep == lines;
    }
    lines := AppendTables(lines, tables, strOf);
    content := RStrip(Join(lines, "\n")) + "\n";
  }

  // ------------------------------------------------------------------
  // _materialize_paths

  const TimestampMark := "{timestamp}"
  const BasenameMark := "{input_file_basename}"

  /** What `_materialize_paths` does to the output path once it is known to be a string. */
  function SubstitutedOutput(out: string, paths: Dict, timestamp: string): Outcome<string> {
    var out1 := if Contains(out, TimestampMark) then ReplaceAll(out, TimestampMark, timestamp) else out;
    if Contains(out1, BasenameMark) then
      var input := Get(paths, "input_file", VStr(""));
      if input.VStr? then Ok(ReplaceAll(out1, BasenameMark, Paths.FileStem(input.s)))
      else Raised(NotAString("input_file"))
    else Ok(out1)
  }

  /**
   * `_materialize_paths` on a value: the configuration with its output path
   * substituted, or the exception raised. `timestamp` is the formatted clock.
   */
  function MaterializePaths(cfg: Dict, timestamp: string): (r: Outcome<Dict>)
    ensures r.Ok? ==> r.value.Keys == cfg.Keys
    ensures r.Ok? ==> forall k :: k in cfg && k != "paths" ==> r.value[k] == cfg[k]
    ensures r.Ok? ==> "paths" in cfg && cfg["paths"].VDict? && r.value["paths"].VDict?
    ensures r.Ok? ==> r.value["paths"].d.Keys == cfg["paths"].d.Keys
    ensures r.Ok? ==> "output_file" in r.value["paths"].d && r.value["paths"].d["output_file"].VStr?
    ensures r.Ok? ==> forall k :: k in cfg["paths"].d && k != "output_file" ==> r.value["paths"].d[k] == cfg["paths"].d[k]
  {
    if "paths" !in cfg then Raised(KeyError("paths"))
    else if !cfg["paths"].VDict? then Raised(NotADict("paths"))
    else
      var paths := cfg["paths"].d;
      if "output_file" !in paths then Raised(KeyError("output_file"))
      else if !paths["output_file"].VStr? then Raised(NotAString("output_file"))
      else
        match SubstitutedOutput(paths["output_file"].s, paths, timestamp)
        case Raised(e) => Raised(e)
        case Ok(out) =>
          if !Get(cfg, "debug", VDict(map[])).VDict? then Raised(NotADict("debug"))
          else Ok(cfg["paths" := VDict(paths["output_file" := VStr(out)])])
  }

  /**
   * With well-formed sections, every `{timestamp}` becomes the timestamp and
   * then every `{input_file_basename}` becomes the input file's stem; nothing
   * else changes.
   */
  lemma MaterializeReplacesEvery(cfg: Dict, timestamp: string)
    requires "paths" in cfg && cfg["paths"].VDict?
    requires "output_file" in cfg["paths"].d && cfg["paths"].d["output_file"].VStr?
    requires Get(cfg["paths"].d, "input_file", VStr("")).VStr?
    requires Get(cfg, "debug", VDict(map[])).VDict?
    ensures var paths := cfg["paths"].d;
      var stem := Paths.FileStem(Get(paths, "input_file", VStr("")).s);
      var out := ReplaceAll(ReplaceAll(paths["output_file"].s, TimestampMark, timestamp), BasenameMark, stem);
      MaterializePaths(cfg, timestamp) == Ok(cfg["paths" := VDict(paths["output_file" := VStr(out)])])
  {
    var paths := cfg["paths"].d;
    var o := paths["output_file"].s;
    if !Contains(o, TimestampMark) {
      ReplaceAllAbsent(o, TimestampMark, timestamp);
    }
    var o1 := ReplaceAll(o, TimestampMark, timestamp);
    if !Contains(o1, BasenameMark) {
      ReplaceAllAbsent(o1, BasenameMark, Paths.FileStem(Get(paths, "input_file", VStr("")).s));
    }
  }

  /** The input file is consulted only when the path asks for its stem. */
  lemma InputFileOnlyWhenAsked(cfg: Dict, timestamp: string)
    requires "paths" in cfg && cfg["paths"].VDict?
    requires "output_file" in cfg["paths"].d && cfg["paths"].d["output_file"].VStr?
    requires !Contains(cfg["paths"].d["output_file"].s, "{")
    requires Get(cfg, "debug", VDict(map[])).VDict?
    ensures MaterializePaths(cfg, timestamp) == Ok(cfg)
  {
    var paths := cfg["paths"].d;
    var o := paths["output_file"].s;
    assert !Contains(o, TimestampMark) by {
      assert TimestampMark[0] == '{';
      if Contains(o, TimestampMark) {
        ContainsHead(o, TimestampMark);
      }
    }
    assert !Contains(o, BasenameMark) by {
      assert BasenameMark[0] == '{';
      if Contains(o, BasenameMark) {
        ContainsHead(o, BasenameMark);
      }
    }
    assert paths["output_file" := VStr(o)] == paths;
    assert cfg["paths" := VDict(paths)] == cfg;
  }

  /** The two `setdefault` calls that copy the paths to the top level. */
  function Flatten(cfg: Dict): (r: Dict)
    requires "paths" in cfg && cfg["paths"].VDict?
    ensures r.Keys == cfg.Keys + {"input_file", "output_file"}
    ensures forall k :: k in cfg ==> r[k] == cfg[k]
    ensures "input_file" !in cfg ==> r["input_file"] == Get(cfg["paths"].d, "input_file", VNone)
    ensures "output_file" !in cfg ==> r["output_file"] == Get(cfg["paths"].d, "output_file", VNone)
  {
    var paths := cfg["paths"].d;
    var c1 := if "input_file" in cfg then cfg else cfg["input_file" := Get(paths, "input_file", VNone)];
    if "output_file" in c1 then c1 else c1["output_file" := Get(paths, "output_file", VNone)]
  }

  // ------------------------------------------------------------------
  // create_config_from_args

  /** The parsed command line the loader reads. */
  datatype CliArgs = CliArgs(
    maxWidth: Value, language: Value, modelSize: Value,
    inputFile: string, output: Value, debug: Value)

  /** The configuration dictionary built from the arguments, before checks. */
  function ArgsConfig(args: CliArgs): Dict {
    var output := if Truthy(args.output) then args.output else VStr("output_" + args.inputFile);
    map[
      "max_width" := args.maxWidth,
      "language" := args.language,
      "model_size" := args.modelSize,
      "paths" := VDict(map["input_file" := VStr(args.inputFile), "output_file" := output]),
      "debug" := VDict(map["enabled" := args.debug, "temp_dir" := VStr("data/debug")])
    ]
  }

  /** `create_config_from_args`: build, check, substitute, flatten. */
  function CreateConfigFromArgs(args: CliArgs, timestamp: string): (r: Outcome<Dict>)
    ensures r.Ok? ==> Validate(ArgsConfig(args)).None?
  {
    var cfg := ArgsConfig(args);
    match Validate(cfg)
    case Some(e) => Raised(e)
    case None =>
      match MaterializePaths(cfg, timestamp)
      case Raised(e) => Raised(e)
      case Ok(c) => Ok(Flatten(c))
  }

  lemma ArgsConfigFields(args: CliArgs)
    ensures var cfg := ArgsConfig(args);
      && Get(cfg, "language", VStr("en")) == args.language
      && Get(cfg, "model_size", VStr("md")) == args.modelSize
      && Get(cfg, "max_width", VInt(78)) == args.maxWidth
      && "paths" in cfg && cfg["paths"].VDict? && Get(cfg, "debug", VDict(map[])).VDict?
      && "input_file" !in cfg && "output_file" !in cfg
      && "output_file" in cfg["paths"].d
      && Get(cfg["paths"].d, "input_file", VStr("")) == VStr(args.inputFile)
      && cfg["paths"].d["output_file"] == (if Truthy(args.output) then args.output else VStr("output_" + args.inputFile))
  {
  }

  /** The checks pass exactly when the three checked arguments are in range. */
  lemma ArgsValidate(args: CliArgs)
    ensures Validate(ArgsConfig(args)).None? <==>
      OneOf(args.language, Languages) && OneOf(args.modelSize, ModelSizes) && PositiveInt(args.maxWidth)
  {
    ArgsConfigFields(args);
  }

  /**
   * The arguments are refused exactly when a checked value is out of range,
   * or when an explicit output is not a string. On success the input and
   * output paths are copied to the top level, and without an explicit output
   * the path is `output_<input>` with its placeholders substituted.
   */
  lemma CreateConfigOutcome(args: CliArgs, timestamp: string)
    ensures var r := CreateConfigFromArgs(args, timestamp);
      r.Ok? <==>
        OneOf(args.language, Languages) && OneOf(args.modelSize, ModelSizes) && PositiveInt(args.maxWidth)
        && (!Truthy(args.output) || args.output.VStr?)
    ensures var r := CreateConfigFromArgs(args, timestamp);
      r.Ok? ==> r.value["input_file"] == VStr(args.inputFile)
    ensures var r := CreateConfigFromArgs(args, timestamp);
      r.Ok? ==>
        var out := ReplaceAll(ReplaceAll((if Truthy(args.output) then args.output.s else "output_" + args.inputFile),
                                         TimestampMark, timestamp), BasenameMark, Paths.FileStem(args.inputFile));
        r.value["output_file"] == VStr(out)
  {
    var cfg := ArgsConfig(args);
    ArgsConfigFields(args);
    ArgsValidate(args);
    if Validate(cfg).None? && cfg["paths"].d["output_file"].VStr? {
      CreateConfigFlattened(args, timestamp);
    } else if Validate(cfg).None? {
      assert MaterializePaths(cfg, timestamp).Raised?;
    }
  }

  /** Accepted arguments give the substituted paths, copied to the top level. */
  lemma CreateConfigFlattened(args: CliArgs, timestamp: string)
    requires Validate(ArgsConfig(args)).None? && ArgsConfig(args)["paths"].d["output_file"].VStr?
    ensures var r := CreateConfigFromArgs(args, timestamp);
      var out := ReplaceAll(ReplaceAll(ArgsConfig(args)["paths"].d["output_file"].s,
                                       TimestampMark, timestamp), BasenameMark, Paths.FileStem(args.inputFile));
      r.Ok? && r.value["input_file"] == VStr(args.inputFile) && r.value["output_file"] == VStr(out)
  {
    var cfg := ArgsConfig(args);
    var paths := cfg["paths"].d;
    var out := ReplaceAll(ReplaceAll(paths["output_file"].s, TimestampMark, timestamp), BasenameMark, Paths.FileStem(args.inputFile));
    ArgsMaterialized(args, timestamp);
    FlattenedPaths(cfg, VStr(out));
  }

  /** Materializing the arguments' configuration substitutes the output path and nothing else. */
  lemma ArgsMaterialized(args: CliArgs, timestamp: string)
    requires ArgsConfig(args)["paths"].d["output_file"].VStr?
    ensures var cfg := ArgsConfig(args);
      var paths := cfg["paths"].d;
      var out := ReplaceAll(ReplaceAll(paths["output_file"].s, TimestampMark, timestamp), BasenameMark, Paths.FileStem(args.inputFile));
      MaterializePaths(cfg, timestamp) == Ok(cfg["paths" := VDict(paths["output_file" := VStr(out)])])
  {
    ArgsConfigFields(args);
    MaterializeReplacesEvery(ArgsConfig(args), timestamp);
  }

  /** Flattening copies the section's paths up when the top level has none. */
  lemma FlattenedPaths(cfg: Dict, out: Value)
    requires "paths" in cfg && cfg["paths"].VDict? && "input_file" !in cfg && "output_file" !in cfg
    ensures var c := cfg["paths" := VDict(cfg["paths"].d["output_file" := out])];
      var f := Flatten(c);
      f["output_file"] == out && f["input_file"] == Get(cfg["paths"].d, "input_file", VNone)
  {
  }


}
