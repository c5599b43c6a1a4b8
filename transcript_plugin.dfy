/**
 * The transcript converter as a plugin (`TranscriptConverterPlugin.process`)
 * and the stand-alone script's choice of output names. The plugin takes the
 * path of a `.transcript` file, parses it, and writes an `.srt` file and a
 * `.txt` file named after the input's stem into the output directory, which
 * the execution layer puts under `_output_dir` in the plugin's configuration.
 *
 * File reading and writing are left out: the file's text is a parameter and
 * the written files are returned as (path, text) pairs. Paths are strings in
 * the normal form `pathlib` prints them: no trailing `/` except for the root,
 * no `//`, no `.` components.
 */
module TranscriptPlugin {
  import opened Wrappers
  import opened Values
  import opened PyText
  import opened Paths
  import PluginBase
  import T = Transcript
  import W = TranscriptWriters

  // ------------------------------------------------------------------
  // Configuration

  const FieldTypes: seq<(string, PyType)> := [("enabled", TBool), ("emit_srt", TBool), ("emit_txt", TBool)]

  /** `config_schema`: no required field, three optional booleans */
  const Schema := PluginBase.Schema([], {"enabled", "emit_srt", "emit_txt"}, FieldTypes, [], map[])

  /** `self.config.get(key, True)`, read as a condition */
  predicate Flag(config: Dict, key: string) {
    Truthy(Get(config, key, VBool(true)))
  }

  /** The directory is not a key of the schema: a configuration that names it is refused at construction. */
  lemma OutputDirIsInjected(config: Dict)
    requires "_output_dir" in config
    ensures PluginBase.Construct(Some(Schema), Some(config)).Failure?
  {
    PluginBase.UnknownReported(Schema, config, "_output_dir");
  }

  /** A missing key reads as on, so the empty configuration emits both files. */
  lemma DefaultsAreOn(config: Dict)
    requires config == map[]
    ensures PluginBase.Construct(Some(Schema), Some(config)) == Success(config)
    ensures Flag(config, "enabled") && Flag(config, "emit_srt") && Flag(config, "emit_txt")
  {
    PluginBase.ValidateIff(Schema, config);
    assert PluginBase.WithDefaults(config, Schema.defaults) == config;
  }

  // ------------------------------------------------------------------
  // The artifacts of `process`

  /**
   * The output directory: a truthy `_output_dir` names it (a value `Path`
   * cannot take raises), otherwise it is the input's own directory.
   */
  function OutputDir(config: Dict, input: string): (r: Result<string>)
    ensures r.Failure? <==> "_output_dir" in config && Truthy(config["_output_dir"]) && !config["_output_dir"].VStr?
    ensures r.Success? && !("_output_dir" in config && Truthy(config["_output_dir"])) ==> r.value == Parent(input)
  {
    var v := Get(config, "_output_dir", VNone);
    if !Truthy(v) then Success(Parent(input))
    else if v.VStr? then Success(v.s)
    else Failure("TypeError: expected str, bytes or os.PathLike object")
  }

  /** the paths `process` returns, in the order it appends them */
  function Artifacts(emitSrt: bool, emitTxt: bool, dir: string, base: string): seq<string> {
    (if emitSrt then [PathJoin(dir, base + ".srt")] else []) + (if emitTxt then [PathJoin(dir, base + ".txt")] else [])
  }

  /**
   * One artifact per enabled format, SRT first, each in the output directory
   * and named from the input's stem: taking the stem of an artifact's name
   * gives the base name back.
   */
  lemma ArtifactsNamed(emitSrt: bool, emitTxt: bool, dir: string, input: string)
    requires !AllDots(Basename(input))
    ensures var a := Artifacts(emitSrt, emitTxt, dir, FileStem(input));
      |a| == (if emitSrt then 1 else 0) + (if emitTxt then 1 else 0) &&
      (emitSrt ==> a[0] == PathJoin(dir, FileStem(input) + ".srt")) &&
      (forall k :: 0 <= k < |a| ==> Stem(Basename(a[k])) == FileStem(input))
  {
    var base := FileStem(input);
    StemOfBasename(input);
    var srt, txt := PathJoin(dir, base + ".srt"), PathJoin(dir, base + ".txt");
    var a := Artifacts(emitSrt, emitTxt, dir, base);
    forall k | 0 <= k < |a| ensures Stem(Basename(a[k])) == base {
      if a[k] == srt {
        NamedArtifact(dir, base, ".srt");
      } else {
        assert a[k] == txt;
        NamedArtifact(dir, base, ".txt");
      }
    }
  }

  lemma NamedArtifact(dir: string, base: string, ext: string)
    requires !AllDots(base) && !ContainsChar(base, '/')
    requires ext == ".srt" || ext == ".txt"
    ensures Stem(Basename(PathJoin(dir, base + ext))) == base
  {
    var e := ext[1..];
    assert base + ext == base + "." + e;
    ContainsCharConcat(base, ".", '/');
    ContainsCharConcat(base + ".", e, '/');
    BasenameOfJoin(dir, base + ext);
    StemDropsExtension(base, e);
  }

  /** the files `process` writes, with the text each holds */
  function Written(emitSrt: bool, emitTxt: bool, dir: string, base: string, subs: seq<T.Subtitle>): seq<(string, string)> {
    (if emitSrt then [(PathJoin(dir, base + ".srt"), W.Terminated(W.SrtLines(subs)))] else [])
      + (if emitTxt then [(PathJoin(dir, base + ".txt"), W.Terminated(Kept(T.Texts(subs))))] else [])
  }

  /** Each artifact is written, and nothing else is. */
  lemma WrittenArtifacts(emitSrt: bool, emitTxt: bool, dir: string, base: string, subs: seq<T.Subtitle>)
    ensures var w := Written(emitSrt, emitTxt, dir, base, subs);
      var a := Artifacts(emitSrt, emitTxt, dir, base);
      |w| == |a| && forall k :: 0 <= k < |w| ==> w[k].0 == a[k]
  {
  }

  class TranscriptConverterPlugin {
    /** the configuration; the execution layer adds `_output_dir` after construction */
    var config: Dict
    const enabled: bool
    const emitSrt: bool
    const emitTxt: bool

    /** `__init__`, for a configuration the base class accepts */
    constructor(config: Option<Dict>)
      requires PluginBase.Construct(Some(Schema), config).Success?
      ensures this.config == PluginBase.Construct(Some(Schema), config).value
      ensures enabled == Flag(this.config, "enabled") && emitSrt == Flag(this.config, "emit_srt")
      ensures emitTxt == Flag(this.config, "emit_txt")
    {
      var c := PluginBase.Construct(Some(Schema), config).value;
      this.config := c;
      enabled := Flag(c, "enabled");
      emitSrt := Flag(c, "emit_srt");
      emitTxt := Flag(c, "emit_txt");
    }

    /** the execution layer's `config["_output_dir"] = ...` */
    method SetOutputDir(dir: Value)
      modifies this
      ensures config == old(config)["_output_dir" := dir]
    {
      config := config["_output_dir" := dir];
    }

    /**
     * `process`, given the text of the input file: nothing when disabled;
     * otherwise the parsed subtitles are written as SRT and as plain text,
     * as the flags say, and the written paths are returned.
     */
    method Process(input: string, content: string) returns (r: Result<seq<string>>, written: seq<(string, string)>)
      ensures !enabled ==> r == Success([]) && written == []
      ensures enabled && OutputDir(config, input).Failure? ==> r.Failure? && written == []
      ensures enabled && OutputDir(config, input).Success? ==>
        var dir := OutputDir(config, input).value;
        var subs := T.Subtitles(T.PluginRule, T.FileLines(content), 0);
        r == Success(Artifacts(emitSrt, emitTxt, dir, FileStem(input))) &&
        written == Written(emitSrt, emitTxt, dir, FileStem(input), subs)
    {
      written := [];
      if !enabled {
        return Success([]), [];
      }
      var out := OutputDir(config, input);
      if out.Failure? {
        return Failure(out.error), [];
      }
      var dir := out.value;
      var base := FileStem(input);
      var subtitles := T.ParseSubtitleFile(T.PluginRule, content);
      var srtFile, srtArtifact := [], [];
      if emitSrt {
        var srt := PathJoin(dir, base + ".srt");
        var text := W.WriteSrt(subtitles);
        srtFile, srtArtifact := [(srt, text)], [srt];
      }
      var txtFile, txtArtifact := [], [];
      if emitTxt {
        var txt := PathJoin(dir, base + ".txt");
        var text := W.WriteTxt(subtitles);
        txtFile, txtArtifact := [(txt, text)], [txt];
      }
      written := srtFile + txtFile;
      r := Success(srtArtifact + txtArtifact);
    }
  }

  // ------------------------------------------------------------------
  // The script's output names

  const Extension := ".transcript"

  /**
   * The script's names for its two outputs, as written: for an input ending
   * in `.transcript`, every occurrence of `.transcript` is removed before
   * `.srt` and `.txt` are appended.
   */
  function ScriptOutputs(input: string): (string, string) {
    if EndsWith(input, Extension) then
      var base := ReplaceAll(input, Extension, "");
      (base + ".srt", base + ".txt")
    else (input + ".srt", input + ".txt")
  }

  /** The names as intended: only the final `.transcript` gives way to the new extension. */
  function IntendedOutputs(input: string): (r: (string, string))
    ensures !EndsWith(input, Extension) ==> r == (input + ".srt", input + ".txt")
  {
    if EndsWith(input, Extension) then
      var base := input[..|input| - |Extension|];
      (base + ".srt", base + ".txt")
    else (input + ".srt", input + ".txt")
  }

  /** Swapping the extension back on the intended names gives the input. */
  lemma IntendedOutputsSwapExtension(input: string)
    requires EndsWith(input, Extension)
    ensures var (srt, txt) := IntendedOutputs(input);
      EndsWith(srt, ".srt") && EndsWith(txt, ".txt") &&
      srt[..|srt| - 4] + Extension == input && txt[..|txt| - 4] + Extension == input
  {
    var (srt, txt) := IntendedOutputs(input);
    var base := input[..|input| - |Extension|];
    assert srt[..|srt| - 4] == base && txt[..|txt| - 4] == base;
    assert base + input[|input| - |Extension|..] == input;
  }

  /** When `.transcript` appears nowhere but at the end, the two naming rules agree. */
  lemma ScriptOutputsAgree(input: string)
    requires forall i :: 0 <= i < |input| - |Extension| ==> !OccursAt(input, Extension, i)
    ensures ScriptOutputs(input) == IntendedOutputs(input)
  {
    if EndsWith(input, Extension) {
      var b := input[..|input| - |Extension|];
      assert b + Extension + "" == input;
      ReplaceAfterOccurrence(b, Extension, "");
      assert ReplaceAll("", Extension, "") == "";
      assert b + "" == b;
    }
  }

  /** `.transcript` starts with a dot, so it does not occur where there is none. */
  lemma NoDotNoExtension(s: string, i: int)
    requires 0 <= i < |s| && s[i] != '.'
    ensures !OccursAt(s, Extension, i)
  {
  }

  /**
   * A directory named like a transcript loses its extension too: the script
   * run on `notes.transcript/talk.transcript` names its SRT output
   * `notes/talk.srt`, outside the input's directory, where
   * `notes.transcript/talk.srt` was meant.
   */
  lemma ScriptOutputsLeaveDirectory(dir: string, name: string)
    requires !ContainsChar(dir, '.') && !ContainsChar(name, '.')
    ensures var input := dir + Extension + "/" + name + Extension;
      ScriptOutputs(input).0 == dir + "/" + name + ".srt" &&
      IntendedOutputs(input).0 == dir + Extension + "/" + name + ".srt" &&
      ScriptOutputs(input) != IntendedOutputs(input)
  {
    var input := dir + Extension + "/" + name + Extension;
    BothExtensionsRemoved(dir, name);
    assert EndsWith(input, Extension);
    assert input[..|input| - |Extension|] == dir + Extension + "/" + name;
    assert |ScriptOutputs(input).0| < |IntendedOutputs(input).0|;
  }

  /** Removing every `.transcript` from such an input removes the directory's as well as the file's. */
  lemma BothExtensionsRemoved(dir: string, name: string)
    requires !ContainsChar(dir, '.') && !ContainsChar(name, '.')
    ensures ReplaceAll(dir + Extension + "/" + name + Extension, Extension, "") == dir + "/" + name
  {
    var tail := "/" + name;
    var input := dir + Extension + (tail + Extension);
    assert input == dir + Extension + "/" + name + Extension;
    forall i | 0 <= i < |dir| ensures !OccursAt(input, Extension, i) {
      assert input[i] == dir[i];
      NoDotNoExtension(input, i);
    }
    ReplaceAfterOccurrence(dir, Extension, tail + Extension);
    var rest := tail + Extension + "";
    forall i | 0 <= i < |tail| ensures !OccursAt(rest, Extension, i) {
      assert rest[i] == tail[i];
      if i > 0 {
        assert tail[i] == name[i - 1];
      }
      NoDotNoExtension(rest, i);
    }
    ReplaceAfterOccurrence(tail, Extension, "");
    assert tail + Extension + "" == tail + Extension;
    assert dir + tail == dir + "/" + name;
  }

  /** Text before an occurrence that holds no start of the pattern is copied, and the occurrence removed. */
  lemma {:induction false} ReplaceAfterOccurrence(a: string, p: string, rest: string)
    requires |p| > 0
    requires forall i :: 0 <= i < |a| ==> !OccursAt(a + p + rest, p, i)
    ensures ReplaceAll(a + p + rest, p, "") == a + ReplaceAll(rest, p, "")
    decreases |a|
  {
    var s := a + p + rest;
    if a == [] {
      assert s == p + rest && s[..|p|] == p && s[|p|..] == rest;
    } else {
      assert !OccursAt(s, p, 0);
      var t := a[1..];
      assert s[1..] == t + p + rest;
      forall i | 0 <= i < |t| ensures !OccursAt(t + p + rest, p, i) {
        assert !OccursAt(s, p, i + 1);
        if i + |p| <= |t + p + rest| {
          assert (t + p + rest)[i..i + |p|] == s[i + 1..i + 1 + |p|];
        }
      }
      ReplaceAfterOccurrence(t, p, rest);
      assert [s[0]] + t == a;
    }
  }
}
