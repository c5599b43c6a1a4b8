/**
 * The unified logger: a level filter in front of two outputs, the terminal
 * and an optional GUI callback, plus the message shapes of the step and
 * statistics helpers and their debug-mode gating. Printing is recorded as
 * the list of lines printed; the GUI callback is described by the messages
 * on which it raises, and the lines it accepted are recorded. The clock is
 * a parameter: the `%H:%M:%S` text of the moment of the call.
 */
module UnifiedLogging {
  import opened Wrappers
  import opened Values
  import opened PyText
  import Seqs

  /** `LOG_LEVELS`: the known levels and their ranks. */
  const LogLevels: map<string, nat> := map["DEBUG" := 0, "INFO" := 1, "WARNING" := 2, "ERROR" := 3]

  /** A level's rank, with an unknown level ranked as INFO. */
  function Rank(level: string): (r: nat)
    ensures r <= 3
    ensures level !in LogLevels ==> r == 1
  {
    if level in LogLevels then LogLevels[level] else 1
  }

  /** `should_log`, given the current level. */
  predicate ShouldLog(current: string, level: string) {
    Rank(Upper(level)) >= Rank(current)
  }

  /** The level `set_log_level` stores: the upper-cased name if known, INFO otherwise. */
  function StoredLevel(level: string): (r: string)
    ensures r in LogLevels
    ensures Upper(level) in LogLevels ==> r == Upper(level)
    ensures Upper(level) !in LogLevels ==> r == "INFO"
  {
    if Upper(level) in LogLevels then Upper(level) else "INFO"
  }

  /** Errors always pass the filter; debug messages pass only at the DEBUG level. */
  lemma FilterExtremes(current: string)
    requires current in LogLevels
    ensures ShouldLog(current, "ERROR") && ShouldLog(current, "error")
    ensures ShouldLog(current, "DEBUG") <==> current == "DEBUG"
  {
    assert Upper("ERROR") == "ERROR";
    assert Upper("error") == "ERROR";
    assert Upper("DEBUG") == "DEBUG";
  }

  /** Each of the four levels passes exactly when the current level ranks at most its own. */
  lemma LevelPasses(current: string)
    ensures ShouldLog(current, "DEBUG") <==> Rank(current) == 0
    ensures ShouldLog(current, "INFO") <==> Rank(current) <= 1
    ensures ShouldLog(current, "WARNING") <==> Rank(current) <= 2
    ensures ShouldLog(current, "ERROR")
  {
    assert Upper("DEBUG") == "DEBUG";
    assert Upper("INFO") == "INFO";
    assert Upper("WARNING") == "WARNING";
    assert Upper("ERROR") == "ERROR";
  }

  /** A message at an unknown level is treated like INFO. */
  lemma UnknownLevelIsInfo(current: string, level: string)
    requires Upper(level) !in LogLevels
    ensures ShouldLog(current, level) <==> ShouldLog(current, "INFO")
  {
    assert Upper("INFO") == "INFO";
  }

  /** Raising the current level never lets more messages through. */
  lemma FilterMonotone(lower: string, higher: string, level: string)
    requires Rank(lower) <= Rank(higher)
    ensures ShouldLog(higher, level) ==> ShouldLog(lower, level)
  {
  }

  /** The line `log` emits. */
  function Formatted(clock: string, level: string, message: string): string {
    "[" + clock + "] " + level + ": " + message
  }

  /** `step`'s message. */
  function StepMessage(stepName: string, message: string): (r: string)
    ensures message != "" ==> r == stepName + ": " + message
    ensures message == "" ==> r == stepName + "..."
  {
    if message != "" then stepName + ": " + message else stepName + "..."
  }

  /** A step message always starts with the step's name. */
  lemma StepNamesStep(stepName: string, message: string)
    ensures StartsWith(StepMessage(stepName, message), stepName)
  {
    assert StepMessage(stepName, message)[..|stepName|] == stepName;
  }

  // ------------------------------------------------------------------
  // stats

  /** A value shown in a statistics block; dictionaries are given as ordered groups. */
  type Shown = v: Value | !v.VDict? witness VNone

  /** One statistics entry: a plain value, or a group of sub-entries in order. */
  datatype StatEntry = Plain(v: Shown) | Group(entries: seq<(string, Value)>)

  /** `str(v)`: a string is itself; other values are spelled by `strOf`. */
  function Show(v: Value, strOf: Value -> string): string {
    if v.VStr? then v.s else strOf(v)
  }

  function Rule(): string {
    seq(40, _ => '-')
  }

  function SubLines(entries: seq<(string, Value)>, strOf: Value -> string): (r: seq<string>)
    ensures |r| == |entries|
  {
    if entries == [] then []
    else
      var e := entries[|entries| - 1];
      SubLines(entries[..|entries| - 1], strOf) + ["  - " + e.0 + ": " + Show(e.1, strOf)]
  }

  lemma SubLinesSnoc(sent: seq<string>, es: seq<(string, Value)>, j: nat, strOf: Value -> string)
    requires j < |es|
    ensures sent + SubLines(es[..j + 1], strOf) == (sent + SubLines(es[..j], strOf)) + ["  - " + es[j].0 + ": " + Show(es[j].1, strOf)]
  {
    assert es[..j + 1][..j] == es[..j];
    var prefix := SubLines(es[..j], strOf);
    var line := "  - " + es[j].0 + ": " + Show(es[j].1, strOf);
    assert SubLines(es[..j + 1], strOf) == prefix + [line];
    Seqs.AppendAssoc(sent, prefix, [line]);
  }

  /** The lines one entry contributes. */
  function EntryLines(key: string, entry: StatEntry, strOf: Value -> string): seq<string> {
    match entry
    case Plain(v) => ["  - " + key + ": " + Show(v, strOf)]
    case Group(es) => [key + ":"] + SubLines(es, strOf)
  }

  function ItemLines(items: seq<(string, StatEntry)>, strOf: Value -> string): seq<string> {
    if items == [] then []
    else
      var it := items[|items| - 1];
      ItemLines(items[..|items| - 1], strOf) + EntryLines(it.0, it.1, strOf)
  }

  lemma ItemLinesSnoc(sent: seq<string>, items: seq<(string, StatEntry)>, i: nat, strOf: Value -> string)
    requires i < |items|
    ensures sent + ItemLines(items[..i + 1], strOf) == (sent + ItemLines(items[..i], strOf)) + EntryLines(items[i].0, items[i].1, strOf)
  {
    assert items[..i + 1][..i] == items[..i];
    var prefix := ItemLines(items[..i], strOf);
    assert ItemLines(items[..i + 1], strOf) == prefix + EntryLines(items[i].0, items[i].1, strOf);
    Seqs.AppendAssoc(sent, prefix, EntryLines(items[i].0, items[i].1, strOf));
  }

  /** The messages of a statistics block: title, rule, the entries, rule. */
  function StatsLines(title: string, items: seq<(string, StatEntry)>, strOf: Value -> string): seq<string> {
    [title + ":", Rule()] + ItemLines(items, strOf) + [Rule()]
  }

  /** The entries of a block take one line per plain entry and one plus its size per group; `StatsLines` adds the title and two rules. */
  lemma {:induction false} StatsLineCount(items: seq<(string, StatEntry)>, strOf: Value -> string)
    ensures |ItemLines(items, strOf)| == EntryCount(items)
    decreases |items|
  {
    if items != [] {
      StatsLineCount(items[..|items| - 1], strOf);
    }
  }

  function EntryCount(items: seq<(string, StatEntry)>): nat {
    if items == [] then 0
    else
      var it := items[|items| - 1];
      EntryCount(items[..|items| - 1]) + (if it.1.Plain? then 1 else 1 + |it.1.entries|)
  }

  // ------------------------------------------------------------------
  // the outputs

  /** The lines a list of messages prints, each formatted at the same moment and level. */
  function FormatAll(clock: string, level: string, msgs: seq<string>): (r: seq<string>)
    ensures |r| == |msgs|
    ensures forall i :: 0 <= i < |msgs| ==> r[i] == Formatted(clock, level, msgs[i])
  {
    seq(|msgs|, i requires 0 <= i < |msgs| => Formatted(clock, level, msgs[i]))
  }

  /** The formatted lines the callback accepts; a raising call is swallowed. */
  function Accepted(raises: set<string>, lines: seq<string>): (r: seq<string>)
    ensures |r| <= |lines|
  {
    if lines == [] then []
    else Accepted(raises, lines[..|lines| - 1]) + (if lines[|lines| - 1] in raises then [] else [lines[|lines| - 1]])
  }

  lemma FormatAllSnoc(clock: string, level: string, msgs: seq<string>, m: string)
    ensures FormatAll(clock, level, msgs + [m]) == FormatAll(clock, level, msgs) + [Formatted(clock, level, m)]
  {
  }

  lemma AcceptedSnoc(raises: set<string>, lines: seq<string>, l: string)
    ensures Accepted(raises, lines + [l]) == Accepted(raises, lines) + (if l in raises then [] else [l])
  {
    assert (lines + [l])[..|lines|] == lines;
  }

  /** Offering one more line to the callback extends what it accepted. */
  lemma GuiStep(raises: set<string>, before: seq<string>, line: string)
    ensures Accepted(raises, before) + Accepted(raises, [line]) == Accepted(raises, before + [line])
  {
    assert [line][..0] == [];
    assert (before + [line])[..|before|] == before;
  }

  class UnifiedLogger {
    /** the GUI callback, described by the messages on which it raises */
    var callback: Option<set<string>>
    var terminalEnabled: bool
    var guiEnabled: bool
    var debugMode: bool
    var logLevel: string
    /** the lines printed to the terminal */
    var terminal: seq<string>
    /** the lines the GUI callback accepted */
    var gui: seq<string>

    /** The stored level is always a known one. */
    predicate Valid()
      reads this
    {
      logLevel in LogLevels
    }

    /** The settings, which logging never changes. */
    ghost function Settings(): (Option<set<string>>, bool, bool, bool, string)
      reads this
    {
      (callback, terminalEnabled, guiEnabled, debugMode, logLevel)
    }

    /** What the terminal shows after `msgs` are logged at `level` from now on. */
    function TerminalAfter(clock: string, level: string, msgs: seq<string>, passes: bool): seq<string>
      reads this
    {
      terminal + (if terminalEnabled && passes then FormatAll(clock, level, msgs) else [])
    }

    /** What the GUI has received after `msgs` are logged at `level` from now on. */
    function GuiAfter(clock: string, level: string, msgs: seq<string>, passes: bool): seq<string>
      reads this
    {
      gui + (if guiEnabled && callback.Some? && passes
             then Accepted(callback.value, FormatAll(clock, level, msgs)) else [])
    }

    constructor()
      ensures Valid()
      ensures callback == None && terminalEnabled && guiEnabled && !debugMode && logLevel == "INFO"
      ensures terminal == [] && gui == []
    {
      callback := None;
      terminalEnabled := true;
      guiEnabled := true;
      debugMode := false;
      logLevel := "INFO";
      terminal := [];
      gui := [];
    }

    method SetGuiCallback(raises: set<string>)
      modifies this
      ensures callback == Some(raises)
      ensures terminalEnabled == old(terminalEnabled) && guiEnabled == old(guiEnabled)
      ensures debugMode == old(debugMode) && logLevel == old(logLevel)
      ensures terminal == old(terminal) && gui == old(gui)
    {
      callback := Some(raises);
    }

    method EnableTerminal(enabled: bool)
      modifies this
      ensures terminalEnabled == enabled
      ensures callback == old(callback) && guiEnabled == old(guiEnabled)
      ensures debugMode == old(debugMode) && logLevel == old(logLevel)
      ensures terminal == old(terminal) && gui == old(gui)
    {
      terminalEnabled := enabled;
    }

    method EnableGui(enabled: bool)
      modifies this
      ensures guiEnabled == enabled
      ensures callback == old(callback) && terminalEnabled == old(terminalEnabled)
      ensures debugMode == old(debugMode) && logLevel == old(logLevel)
      ensures terminal == old(terminal) && gui == old(gui)
    {
      guiEnabled := enabled;
    }

    method SetDebugMode(enabled: bool)
      modifies this
      ensures debugMode == enabled
      ensures callback == old(callback) && terminalEnabled == old(terminalEnabled)
      ensures guiEnabled == old(guiEnabled) && logLevel == old(logLevel)
      ensures terminal == old(terminal) && gui == old(gui)
    {
      debugMode := enabled;
    }

    /** `set_log_level`: the upper-cased level if known, INFO otherwise. */
    method SetLogLevel(level: string)
      modifies this
      ensures Valid() && logLevel == StoredLevel(level)
      ensures callback == old(callback) && terminalEnabled == old(terminalEnabled)
      ensures guiEnabled == old(guiEnabled) && debugMode == old(debugMode)
      ensures terminal == old(terminal) && gui == old(gui)
    {
      if Upper(level) in LogLevels {
        logLevel := Upper(level);
      } else {
        logLevel := "INFO";
      }
    }

    /** `should_log` */
    method ShouldLogAt(level: string) returns (r: bool)
      ensures r <==> Rank(Upper(level)) >= Rank(logLevel)
    {
      var current := if logLevel in LogLevels then LogLevels[logLevel] else 1;
      var msgLevel := if Upper(level) in LogLevels then LogLevels[Upper(level)] else 1;
      r := msgLevel >= current;
    }

    /** `log`: nothing when filtered out; otherwise the line is printed if the terminal is on and offered to the callback if the GUI is on. */
    method Log(message: string, level: string, clock: string)
      modifies this
      ensures terminal == old(TerminalAfter(clock, level, [message], ShouldLog(logLevel, level)))
      ensures gui == old(GuiAfter(clock, level, [message], ShouldLog(logLevel, level)))
      ensures Settings() == old(Settings())
    {
      var allowed := ShouldLogAt(level);
      if !allowed {
        return;
      }
      var line := Formatted(clock, level, message);
      if terminalEnabled {
        terminal := terminal + [line];
      }
      if guiEnabled && callback.Some? {
        if line !in callback.value {
          gui := gui + [line];
        }
      }
    }

    method Info(message: string, clock: string)
      modifies this
      ensures terminal == old(TerminalAfter(clock, "INFO", [message], Rank(logLevel) <= 1))
      ensures gui == old(GuiAfter(clock, "INFO", [message], Rank(logLevel) <= 1))
      ensures Settings() == old(Settings())
    {
      LevelPasses(logLevel);
      Log(message, "INFO", clock);
    }

    method Warning(message: string, clock: string)
      modifies this
      ensures terminal == old(TerminalAfter(clock, "WARNING", [message], Rank(logLevel) <= 2))
      ensures gui == old(GuiAfter(clock, "WARNING", [message], Rank(logLevel) <= 2))
      ensures Settings() == old(Settings())
    {
      LevelPasses(logLevel);
      Log(message, "WARNING", clock);
    }

    method Error(message: string, clock: string)
      modifies this
      ensures terminal == old(TerminalAfter(clock, "ERROR", [message], true))
      ensures gui == old(GuiAfter(clock, "ERROR", [message], true))
      ensures Settings() == old(Settings())
    {
      LevelPasses(logLevel);
      Log(message, "ERROR", clock);
    }

    method Debug(message: string, clock: string)
      modifies this
      ensures terminal == old(TerminalAfter(clock, "DEBUG", [message], Rank(logLevel) == 0))
      ensures gui == old(GuiAfter(clock, "DEBUG", [message], Rank(logLevel) == 0))
      ensures Settings() == old(Settings())
    {
      LevelPasses(logLevel);
      Log(message, "DEBUG", clock);
    }

    /** `step`: "name: message", or "name..." without a message, at INFO. */
    method Step(stepName: string, message: string, clock: string)
      modifies this
      ensures terminal == old(TerminalAfter(clock, "INFO", [StepMessage(stepName, message)], Rank(logLevel) <= 1))
      ensures gui == old(GuiAfter(clock, "INFO", [StepMessage(stepName, message)], Rank(logLevel) <= 1))
      ensures Settings() == old(Settings())
    {
      if message != "" {
        Info(stepName + ": " + message, clock);
      } else {
        Info(stepName + "...", clock);
      }
    }

    /** Since the outputs were `t0` and `g0`, exactly `sent` has been logged at INFO. */
    ghost predicate LoggedSince(t0: seq<string>, g0: seq<string>, on: bool, clock: string, sent: seq<string>)
      reads this
    {
      && terminal == t0 + (if terminalEnabled && on then FormatAll(clock, "INFO", sent) else [])
      && gui == g0 + (if guiEnabled && callback.Some? && on
                      then Accepted(callback.value, FormatAll(clock, "INFO", sent)) else [])
    }

    /** One more INFO message of a block. */
    method InfoNext(message: string, clock: string, ghost t0: seq<string>, ghost g0: seq<string>, ghost on: bool, ghost sent: seq<string>)
      modifies this
      requires on <==> Rank(logLevel) <= 1
      requires LoggedSince(t0, g0, on, clock, sent)
      ensures LoggedSince(t0, g0, on, clock, sent + [message])
      ensures Settings() == old(Settings())
    {
      ghost var t1, g1 := terminal, gui;
      LevelPasses(logLevel);
      Info(message, clock);
      FormatAllSnoc(clock, "INFO", sent, message);
      if terminalEnabled && on {
        assert terminal == t1 + FormatAll(clock, "INFO", [message]);
        assert terminal == t0 + FormatAll(clock, "INFO", sent + [message]);
      }
      if guiEnabled && callback.Some? && on {
        ghost var before := Accepted(callback.value, FormatAll(clock, "INFO", sent));
        ghost var added := Accepted(callback.value, FormatAll(clock, "INFO", [message]));
        GuiStep(callback.value, FormatAll(clock, "INFO", sent), Formatted(clock, "INFO", message));
        assert FormatAll(clock, "INFO", [message]) == [Formatted(clock, "INFO", message)];
        assert gui == (g0 + before) + added;
        Seqs.AppendAssoc(g0, before, added);
      }
    }

    /** The sub-entries of one group. */
    method GroupLines(es: seq<(string, Value)>, strOf: Value -> string, clock: string,
                      ghost t0: seq<string>, ghost g0: seq<string>, ghost on: bool, ghost sent: seq<string>)
      modifies this
      requires on <==> Rank(logLevel) <= 1
      requires LoggedSince(t0, g0, on, clock, sent)
      ensures LoggedSince(t0, g0, on, clock, sent + SubLines(es, strOf))
      ensures Settings() == old(Settings())
    {
      assert sent + SubLines(es[..0], strOf) == sent;
      for j := 0 to |es|
        invariant LoggedSince(t0, g0, on, clock, sent + SubLines(es[..j], strOf))
        invariant Settings() == old(Settings())
      {
        var line := "  - " + es[j].0 + ": " + Show(es[j].1, strOf);
        InfoNext(line, clock, t0, g0, on, sent + SubLines(es[..j], strOf));
        SubLinesSnoc(sent, es, j, strOf);
      }
      assert es[..|es|] == es;
    }

    /** A group: its key, then its sub-entries. */
    method GroupNext(key: string, es: seq<(string, Value)>, strOf: Value -> string, clock: string,
                     ghost t0: seq<string>, ghost g0: seq<string>, ghost on: bool, ghost sent: seq<string>)
      modifies this
      requires on <==> Rank(logLevel) <= 1
      requires LoggedSince(t0, g0, on, clock, sent)
      ensures LoggedSince(t0, g0, on, clock, sent + ([key + ":"] + SubLines(es, strOf)))
      ensures Settings() == old(Settings())
    {
      ghost var withKey := sent + [key + ":"];
      ghost var lines := SubLines(es, strOf);
      InfoNext(key + ":", clock, t0, g0, on, sent);
      GroupLines(es, strOf, clock, t0, g0, on, withKey);
      Seqs.AppendAssoc(sent, [key + ":"], lines);
    }

    /** One entry of a statistics block: its line, or its key and its sub-entries. */
    method EntryNext(key: string, entry: StatEntry, strOf: Value -> string, clock: string,
                     ghost t0: seq<string>, ghost g0: seq<string>, ghost on: bool, ghost sent: seq<string>)
      modifies this
      requires on <==> Rank(logLevel) <= 1
      requires LoggedSince(t0, g0, on, clock, sent)
      ensures LoggedSince(t0, g0, on, clock, sent + EntryLines(key, entry, strOf))
      ensures Settings() == old(Settings())
    {
      if entry.Group? {
        GroupNext(key, entry.entries, strOf, clock, t0, g0, on, sent);
      } else {
        InfoNext("  - " + key + ": " + Show(entry.v, strOf), clock, t0, g0, on, sent);
      }
    }

    /** The entries of a statistics block, in order. */
    method ItemsNext(items: seq<(string, StatEntry)>, strOf: Value -> string, clock: string,
                     ghost t0: seq<string>, ghost g0: seq<string>, ghost on: bool, ghost sent: seq<string>)
      modifies this
      requires on <==> Rank(logLevel) <= 1
      requires LoggedSince(t0, g0, on, clock, sent)
      ensures LoggedSince(t0, g0, on, clock, sent + ItemLines(items, strOf))
      ensures Settings() == old(Settings())
    {
      assert sent + ItemLines(items[..0], strOf) == sent;
      for i := 0 to |items|
        invariant LoggedSince(t0, g0, on, clock, sent + ItemLines(items[..i], strOf))
        invariant Settings() == old(Settings())
      {
        EntryNext(items[i].0, items[i].1, strOf, clock, t0, g0, on, sent + ItemLines(items[..i], strOf));
        ItemLinesSnoc(sent, items, i, strOf);
      }
      assert items[..|items|] == items;
    }

    /** `stats`: only in debug mode, the block's lines at INFO. */
    method Stats(title: string, items: seq<(string, StatEntry)>, strOf: Value -> string, clock: string)
      modifies this
      ensures debugMode ==> terminal == old(TerminalAfter(clock, "INFO", StatsLines(title, items, strOf), Rank(logLevel) <= 1))
      ensures debugMode ==> gui == old(GuiAfter(clock, "INFO", StatsLines(title, items, strOf), Rank(logLevel) <= 1))
      ensures !debugMode ==> terminal == old(terminal) && gui == old(gui)
      ensures Settings() == old(Settings())
    {
      if !debugMode {
        return;
      }
      ghost var t0, g0, on := terminal, gui, Rank(logLevel) <= 1;
      ghost var head := [title + ":", Rule()];
      InfoNext(title + ":", clock, t0, g0, on, []);
      InfoNext(Rule(), clock, t0, g0, on, [] + [title + ":"]);
      assert [] + [title + ":"] + [Rule()] == head;
      ItemsNext(items, strOf, clock, t0, g0, on, head);
      InfoNext(Rule(), clock, t0, g0, on, head + ItemLines(items, strOf));
    }

    /** `debug_info`: an INFO message, only in debug mode. */
    method DebugInfo(message: string, clock: string)
      modifies this
      ensures debugMode ==> terminal == old(TerminalAfter(clock, "INFO", [message], Rank(logLevel) <= 1))
      ensures debugMode ==> gui == old(GuiAfter(clock, "INFO", [message], Rank(logLevel) <= 1))
      ensures !debugMode ==> terminal == old(terminal) && gui == old(gui)
      ensures Settings() == old(Settings())
    {
      if debugMode {
        Info(message, clock);
      }
    }

    /** `debug_step`: a step, only in debug mode. */
    method DebugStep(stepName: string, message: string, clock: string)
      modifies this
      ensures debugMode ==> terminal == old(TerminalAfter(clock, "INFO", [StepMessage(stepName, message)], Rank(logLevel) <= 1))
      ensures debugMode ==> gui == old(GuiAfter(clock, "INFO", [StepMessage(stepName, message)], Rank(logLevel) <= 1))
      ensures !debugMode ==> terminal == old(terminal) && gui == old(gui)
      ensures Settings() == old(Settings())
    {
      if debugMode {
        Step(stepName, message, clock);
      }
    }
  }
}
