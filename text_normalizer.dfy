/**
 * The word-diff tool's text normalizer: the byte-order mark, line endings,
 * the punctuation and full-width digit tables, ellipses, repeated marks,
 * whitespace, case and the final clean-up; then the word extraction and
 * the word-position report run on normalized text.
 */
module TextNormalizer {
  import opened PyText
  import opened Scan

  const Bom: char := '\U{feff}'

  // ------------------------------------------------------------------
  // The replacement tables

  /** one `old -> new` entry of a replacement table */
  datatype Entry = Entry(key: string, value: string)

  /** an entry whose key is not empty (`str.replace` with an empty key is never used) */
  type Rule = e: Entry | |e.key| > 0 witness Entry("a", "")

  /** printable ASCII: what every replacement value consists of */
  predicate Plain(s: string) {
    forall i :: 0 <= i < |s| ==> ' ' <= s[i] <= '~'
  }

  predicate IsFullWidthDigit(c: char) { '\U{ff10}' <= c <= '\U{ff19}' }

  predicate NoFullWidth(s: string) {
    forall i :: 0 <= i < |s| ==> !IsFullWidthDigit(s[i])
  }

  /**
   * The punctuation table in the order the dictionary literal builds it.
   * The two entries written with straight double quotes collapse into one
   * identity entry `'"' -> '"'`, and the line holding two triple quotes
   * evaluates to the single seven-character key `: "'", `.
   */
  const PunctHead: seq<Rule> := [
    Entry("\U{3002}", "."), Entry("\U{ff0c}", ","), Entry("\U{ff1b}", ";"), Entry("\U{ff1a}", ":"),
    Entry("\U{ff01}", "!"), Entry("\U{ff1f}", "?"), Entry("\"", "\""), Entry(": \"'\", ", "'")]

  /** （ ） 【 】 《 》 、 … — – · • ※ */
  const PunctMarks: seq<Rule> := [
    Entry("\U{ff08}", "("), Entry("\U{ff09}", ")"), Entry("\U{3010}", "["), Entry("\U{3011}", "]"),
    Entry("\U{300a}", "<"), Entry("\U{300b}", ">"), Entry("\U{3001}", ","), Entry("\U{2026}", "..."),
    Entry("\U{2014}", "-"), Entry("\U{2013}", "-"), Entry("\U{b7}", "."), Entry("\U{2022}", "."),
    Entry("\U{203b}", "*")]

  /** ★ ☆ ◆ ◇ ■ □ ▲ △ ● ○ ◎, then ⊙ ⊕ ⊗ ⊖ ⊘ (the repeated ⊙ keeps its first place) */
  const Stars: string :=
    "\U{2605}\U{2606}\U{25c6}\U{25c7}\U{25a0}\U{25a1}\U{25b2}\U{25b3}\U{25cf}\U{25cb}\U{25ce}"
    + "\U{2299}\U{2295}\U{2297}\U{2296}\U{2298}"

  const Starred: seq<Rule> := seq(|Stars|, i requires 0 <= i < |Stars| => Entry([Stars[i]], "*"))

  /** U+229A ⊚ through U+22FF ⋿, each to "*" */
  const Operators: seq<Rule> := seq(102, i requires 0 <= i < 102 => Entry([(0x229a + i) as char], "*"))

  const PunctuationTable: seq<Rule> := PunctHead + PunctMarks + Starred + Operators

  /** ０ through ９ to 0 through 9 */
  const NumberTable: seq<Rule> := [
    Entry("\U{ff10}", "0"), Entry("\U{ff11}", "1"), Entry("\U{ff12}", "2"), Entry("\U{ff13}", "3"), Entry("\U{ff14}", "4"),
    Entry("\U{ff15}", "5"), Entry("\U{ff16}", "6"), Entry("\U{ff17}", "7"), Entry("\U{ff18}", "8"), Entry("\U{ff19}", "9")]

  /** Every value is printable ASCII. */
  predicate PlainValues(t: seq<Rule>) {
    forall j :: 0 <= j < |t| ==> Plain(t[j].value)
  }

  /** Every value is printable ASCII and every key is free of full-width digits. */
  predicate Inert(t: seq<Rule>) {
    PlainValues(t) && forall j :: 0 <= j < |t| ==> NoFullWidth(t[j].key)
  }

  lemma InertConcat(a: seq<Rule>, b: seq<Rule>)
    requires Inert(a) && Inert(b)
    ensures Inert(a + b)
  {
    forall j | 0 <= j < |a + b| ensures Plain((a + b)[j].value) && NoFullWidth((a + b)[j].key) {
      if j < |a| { assert (a + b)[j] == a[j]; } else { assert (a + b)[j] == b[j - |a|]; }
    }
  }

  lemma HeadInert()
    ensures Inert(PunctHead)
  {
  }

  lemma MarksInert()
    ensures Inert(PunctMarks)
  {
  }

  lemma StarredInert()
    ensures Inert(Starred)
  {
  }

  lemma OperatorsInert()
    ensures Inert(Operators)
  {
  }

  lemma PunctuationTableInert()
    ensures Inert(PunctuationTable)
    ensures |PunctuationTable| == 139
  {
    HeadInert();
    MarksInert();
    StarredInert();
    OperatorsInert();
    InertConcat(PunctHead, PunctMarks);
    InertConcat(PunctHead + PunctMarks, Starred);
    InertConcat(PunctHead + PunctMarks + Starred, Operators);
  }

  // ------------------------------------------------------------------
  // Applying a table in order, as the `for old, new in table.items()` loops do

  /** one loop iteration: replace the key only when it occurs */
  function Step(s: string, e: Rule): string {
    if Contains(s, e.key) then ReplaceAll(s, e.key, e.value) else s
  }

  /** the occurrences one iteration adds to the change counter */
  function StepCount(s: string, e: Rule): nat {
    if Contains(s, e.key) then CountOcc(s, e.key) else 0
  }

  function ApplyTable(s: string, t: seq<Rule>): string {
    if t == [] then s else Step(ApplyTable(s, t[..|t| - 1]), t[|t| - 1])
  }

  function TableCount(s: string, t: seq<Rule>): nat {
    if t == [] then 0 else TableCount(s, t[..|t| - 1]) + StepCount(ApplyTable(s, t[..|t| - 1]), t[|t| - 1])
  }

  lemma ContainsCharContains(s: string, c: char)
    requires ContainsChar(s, c)
    ensures Contains(s, [c])
  {
    var i :| 0 <= i < |s| && s[i] == c;
    assert OccursAt(s, [c], i);
  }

  /** a one-character key outside printable ASCII */
  predicate WideKey(e: Rule) {
    |e.key| == 1 && !(' ' <= e.key[0] <= '~')
  }

  /** None of the table's wide one-character keys occurs in `s`. */
  predicate KeysGone(s: string, t: seq<Rule>) {
    forall j :: 0 <= j < |t| && WideKey(t[j]) ==> !ContainsChar(s, t[j].key[0])
  }

  /** A table whose values are printable creates no character outside printable ASCII. */
  lemma {:induction false} ApplyTableKeepsAbsent(s: string, t: seq<Rule>, c: char)
    requires PlainValues(t) && !(' ' <= c <= '~') && !ContainsChar(s, c)
    ensures !ContainsChar(ApplyTable(s, t), c)
  {
    if t != [] {
      var e := t[|t| - 1];
      assert PlainValues(t[..|t| - 1]);
      ApplyTableKeepsAbsent(s, t[..|t| - 1], c);
      var u := ApplyTable(s, t[..|t| - 1]);
      if Contains(u, e.key) {
        assert Plain(e.value);
        assert !ContainsChar(e.value, c);
        ReplaceAllKeepsAbsent(u, e.key, e.value, c);
      }
    }
  }

  /** After the loop no single-character key outside printable ASCII remains. */
  lemma {:induction false} ApplyTableRemovesKeys(s: string, t: seq<Rule>)
    requires PlainValues(t)
    ensures KeysGone(ApplyTable(s, t), t)
  {
    if t != [] {
      var e := t[|t| - 1];
      var front := t[..|t| - 1];
      assert PlainValues(front);
      ApplyTableRemovesKeys(s, front);
      var u := ApplyTable(s, front);
      assert Plain(e.value);
      forall j | 0 <= j < |t| && WideKey(t[j])
        ensures !ContainsChar(ApplyTable(s, t), t[j].key[0])
      {
        var c := t[j].key[0];
        assert !ContainsChar(e.value, c);
        if j < |t| - 1 {
          assert front[j] == t[j];
          if Contains(u, e.key) {
            ReplaceAllKeepsAbsent(u, e.key, e.value, c);
          }
        } else {
          assert e.key == [c];
          if Contains(u, e.key) {
            ReplaceCharRemoves(u, c, e.value);
          } else if ContainsChar(u, c) {
            ContainsCharContains(u, c);
          }
        }
      }
    }
  }

  /** A table of length zero or without occurring keys changes nothing and counts nothing. */
  lemma {:induction false} ApplyTableUnused(s: string, t: seq<Rule>)
    requires forall j :: 0 <= j < |t| ==> !Contains(s, t[j].key)
    ensures ApplyTable(s, t) == s && TableCount(s, t) == 0
  {
    if t != [] {
      ApplyTableUnused(s, t[..|t| - 1]);
      assert !Contains(s, t[|t| - 1].key);
    }
  }

  // ------------------------------------------------------------------
  // Counting full-width digits

  function FullWidthCount(s: string): nat {
    if s == [] then 0 else (if IsFullWidthDigit(s[0]) then 1 else 0) + FullWidthCount(s[1..])
  }

  lemma {:induction false} FullWidthCountConcat(a: string, b: string)
    ensures FullWidthCount(a + b) == FullWidthCount(a) + FullWidthCount(b)
  {
    if a == [] {
      assert a + b == b;
    } else {
      assert (a + b)[1..] == a[1..] + b;
      FullWidthCountConcat(a[1..], b);
    }
  }

  lemma {:induction false} FullWidthCountNone(s: string)
    requires NoFullWidth(s)
    ensures FullWidthCount(s) == 0
  {
    if s != [] {
      assert NoFullWidth(s[1..]) by {
        forall i | 0 <= i < |s[1..]| ensures !IsFullWidthDigit(s[1..][i]) { assert s[1..][i] == s[i + 1]; }
      }
      FullWidthCountNone(s[1..]);
    }
  }

  lemma {:induction false} FullWidthCountAll(s: string)
    requires FullWidthCount(s) == 0
    ensures NoFullWidth(s)
  {
    if s != [] {
      FullWidthCountAll(s[1..]);
      forall i | 0 <= i < |s| ensures !IsFullWidthDigit(s[i]) {
        if i > 0 { assert s[i] == s[1..][i - 1]; }
      }
    }
  }

  /** Replacing a key and a value free of full-width digits keeps their number. */
  lemma {:induction false} ReplaceKeepsFullWidth(s: string, pat: string, rep: string)
    requires |pat| > 0 && NoFullWidth(pat) && NoFullWidth(rep)
    ensures FullWidthCount(ReplaceAll(s, pat, rep)) == FullWidthCount(s)
    decreases |s|
  {
    if |s| < |pat| {
    } else if s[..|pat|] == pat {
      ReplaceKeepsFullWidth(s[|pat|..], pat, rep);
      FullWidthCountConcat(rep, ReplaceAll(s[|pat|..], pat, rep));
      assert s == pat + s[|pat|..];
      FullWidthCountConcat(pat, s[|pat|..]);
      FullWidthCountNone(pat);
      FullWidthCountNone(rep);
    } else {
      ReplaceKeepsFullWidth(s[1..], pat, rep);
      assert ([s[0]] + ReplaceAll(s[1..], pat, rep))[1..] == ReplaceAll(s[1..], pat, rep);
    }
  }

  /** Replacing one full-width digit by an ASCII character removes exactly its occurrences from the count. */
  lemma {:induction false} ReplaceDigit(s: string, c: char, d: char)
    requires IsFullWidthDigit(c) && !IsFullWidthDigit(d)
    ensures FullWidthCount(ReplaceAll(s, [c], [d])) + CountOcc(s, [c]) == FullWidthCount(s)
    decreases |s|
  {
    if |s| >= 1 {
      ReplaceDigit(s[1..], c, d);
      var t := ReplaceAll(s[1..], [c], [d]);
      if s[..1] == [c] {
        assert ([d] + t)[1..] == t;
        assert s[1..] == s[|[c]|..];
      } else {
        assert ([s[0]] + t)[1..] == t;
      }
    }
  }

  lemma {:induction false} ApplyTableKeepsFullWidth(s: string, t: seq<Rule>)
    requires Inert(t)
    ensures FullWidthCount(ApplyTable(s, t)) == FullWidthCount(s)
  {
    if t != [] {
      var e := t[|t| - 1];
      assert Inert(t[..|t| - 1]);
      ApplyTableKeepsFullWidth(s, t[..|t| - 1]);
      assert NoFullWidth(e.value) by {
        assert Plain(e.value);
      }
      ReplaceKeepsFullWidth(ApplyTable(s, t[..|t| - 1]), e.key, e.value);
    }
  }

  /**
   * The number table removes every full-width digit and counts each one
   * it replaces: numbers_normalized is the number of full-width digits.
   */
  /** Entry `k` of the number table maps the full-width digit `k` to the ASCII digit `k`. */
  lemma NumberTableAt(k: int)
    requires 0 <= k < 10
    ensures NumberTable[k] == Entry([(0xff10 + k) as char], [('0' as int + k) as char])
  {
    if k < 5 {
      assert k == 0 || k == 1 || k == 2 || k == 3 || k == 4;
    } else {
      assert k == 5 || k == 6 || k == 7 || k == 8 || k == 9;
    }
  }

  lemma {:induction false} NumberTablePrefix(s: string, i: nat)
    requires i <= 10
    ensures TableCount(s, NumberTable[..i]) + FullWidthCount(ApplyTable(s, NumberTable[..i])) == FullWidthCount(s)
    ensures forall c :: IsFullWidthDigit(c) && c as int < 0xff10 + i ==> !ContainsChar(ApplyTable(s, NumberTable[..i]), c)
  {
    if i > 0 {
      var front := NumberTable[..i - 1];
      assert NumberTable[..i][..i - 1] == front;
      NumberTablePrefix(s, i - 1);
      var u := ApplyTable(s, front);
      var c := (0xff10 + i - 1) as char;
      var d := ('0' as int + i - 1) as char;
      NumberTableAt(i - 1);
      assert NumberTable[..i][i - 1] == Entry([c], [d]);
      assert ApplyTable(s, NumberTable[..i]) == Step(u, Entry([c], [d]));
      if Contains(u, [c]) {
        ReplaceDigit(u, c, d);
        ReplaceCharRemoves(u, c, [d]);
      } else if ContainsChar(u, c) {
        ContainsCharContains(u, c);
      }
      forall c' | IsFullWidthDigit(c') && c' as int < 0xff10 + i - 1
        ensures !ContainsChar(ApplyTable(s, NumberTable[..i]), c')
      {
        if Contains(u, [c]) {
          ReplaceAllKeepsAbsent(u, [c], [d], c');
        }
      }
    }
  }

  lemma NumberTableCounts(s: string)
    ensures TableCount(s, NumberTable) == FullWidthCount(s)
    ensures NoFullWidth(ApplyTable(s, NumberTable))
  {
    NumberTablePrefix(s, 10);
    assert NumberTable[..10] == NumberTable;
    var u := ApplyTable(s, NumberTable);
    forall k | 0 <= k < |u| ensures !IsFullWidthDigit(u[k]) {
      assert ContainsChar(u, u[k]);
    }
    FullWidthCountNone(u);
  }

  // ------------------------------------------------------------------
  // Adjacent pairs

  predicate PairAt(s: string, i: int, a: char, b: char) {
    0 <= i && i + 1 < |s| && s[i] == a && s[i + 1] == b
  }

  predicate NoPair(s: string, a: char, b: char) {
    forall i :: 0 <= i < |s| ==> !PairAt(s, i, a, b)
  }

  lemma PairCons(x: char, t: string, a: char, b: char)
    ensures NoPair([x] + t, a, b) <==> NoPair(t, a, b) && !(t != [] && x == a && t[0] == b)
  {
    var o := [x] + t;
    if NoPair(o, a, b) {
      forall i | 0 <= i < |t| ensures !PairAt(t, i, a, b) {
        assert PairAt(t, i, a, b) ==> PairAt(o, i + 1, a, b);
      }
      if t != [] { assert !PairAt(o, 0, a, b); }
    }
    if NoPair(t, a, b) && !(t != [] && x == a && t[0] == b) {
      forall i | 0 <= i < |o| ensures !PairAt(o, i, a, b) {
        assert i > 0 && PairAt(o, i, a, b) ==> PairAt(t, i - 1, a, b);
      }
    }
  }

  lemma PairSuffix(s: string, a: char, b: char, d: nat)
    requires NoPair(s, a, b) && d <= |s|
    ensures NoPair(s[d..], a, b)
  {
    forall i | 0 <= i < |s| - d ensures !PairAt(s[d..], i, a, b) {
      assert PairAt(s[d..], i, a, b) ==> PairAt(s, d + i, a, b);
    }
  }

  lemma StripKeepsNoPair(s: string, a: char, b: char)
    requires NoPair(s, a, b)
    ensures NoPair(Strip(s), a, b)
  {
    StripIsSlice(s);
    var lo, hi :| 0 <= lo <= hi <= |s| && Strip(s) == s[lo..hi];
    forall i | 0 <= i < hi - lo ensures !PairAt(s[lo..hi], i, a, b) {
      assert PairAt(s[lo..hi], i, a, b) ==> PairAt(s, lo + i, a, b);
    }
  }

  /** After `[ \t]+` became " ", no two blanks stand side by side. */
  lemma SquashedNoPair(s: string)
    requires NoRun(s, BlankTab, 2)
    ensures NoPair(s, ' ', ' ')
  {
    forall i | 0 <= i < |s| ensures !PairAt(s, i, ' ', ' ') {
      assert RunAt(s, i, BlankTab) < 2;
      if i + 1 < |s| {
        assert s[i..][1..] == s[i + 1..];
      }
    }
  }

  /** the first character of a replacement's output */
  lemma ReplaceFirst(s: string, pat: string, rep: string)
    requires |pat| > 0 && |rep| > 0 && s != []
    ensures ReplaceAll(s, pat, rep) != []
    ensures ReplaceAll(s, pat, rep)[0] == if |s| >= |pat| && s[..|pat|] == pat then rep[0] else s[0]
  {
  }

  /** `re.sub(" \n", "\n", s)` on a string without two adjacent blanks leaves no blank before a line break. */
  lemma {:induction false} DropBlankBeforeBreak(s: string)
    requires NoPair(s, ' ', ' ')
    ensures NoPair(ReplaceAll(s, " \n", "\n"), ' ', ' ')
    ensures NoPair(ReplaceAll(s, " \n", "\n"), ' ', '\n')
    decreases |s|
  {
    if |s| >= 2 {
      if s[..2] == " \n" {
        PairSuffix(s, ' ', ' ', 2);
        DropBlankBeforeBreak(s[2..]);
        var t := ReplaceAll(s[2..], " \n", "\n");
        PairCons('\n', t, ' ', ' ');
        PairCons('\n', t, ' ', '\n');
      } else {
        PairSuffix(s, ' ', ' ', 1);
        DropBlankBeforeBreak(s[1..]);
        var t := ReplaceAll(s[1..], " \n", "\n");
        ReplaceFirst(s[1..], " \n", "\n");
        if s[0] == ' ' {
          assert !PairAt(s, 0, ' ', ' ');
        }
        PairCons(s[0], t, ' ', ' ');
        PairCons(s[0], t, ' ', '\n');
      }
    }
  }

  /** `re.sub("\n ", "\n", s)` then leaves no blank on either side of a line break. */
  lemma {:induction false} DropBlankAfterBreak(s: string)
    requires NoPair(s, ' ', ' ') && NoPair(s, ' ', '\n')
    ensures NoPair(ReplaceAll(s, "\n ", "\n"), ' ', ' ')
    ensures NoPair(ReplaceAll(s, "\n ", "\n"), ' ', '\n')
    ensures NoPair(ReplaceAll(s, "\n ", "\n"), '\n', ' ')
    decreases |s|
  {
    if |s| >= 2 {
      if s[..2] == "\n " {
        PairSuffix(s, ' ', ' ', 2);
        PairSuffix(s, ' ', '\n', 2);
        DropBlankAfterBreak(s[2..]);
        var t := ReplaceAll(s[2..], "\n ", "\n");
        if |s| > 2 {
          ReplaceFirst(s[2..], "\n ", "\n");
          assert !PairAt(s, 1, ' ', ' ');
        }
        PairCons('\n', t, ' ', ' ');
        PairCons('\n', t, ' ', '\n');
        PairCons('\n', t, '\n', ' ');
      } else {
        PairSuffix(s, ' ', ' ', 1);
        PairSuffix(s, ' ', '\n', 1);
        DropBlankAfterBreak(s[1..]);
        var t := ReplaceAll(s[1..], "\n ", "\n");
        ReplaceFirst(s[1..], "\n ", "\n");
        assert t[0] == s[1];
        assert !PairAt(s, 0, ' ', ' ') && !PairAt(s, 0, ' ', '\n');
        PairCons(s[0], t, ' ', ' ');
        PairCons(s[0], t, ' ', '\n');
        PairCons(s[0], t, '\n', ' ');
      }
    }
  }

  // ------------------------------------------------------------------
  // normalize

  /** steps 5 to 8: ellipses, repeated marks, other whitespace, case */
  function Cased(s: string, preserveCase: bool): string {
    var spaced := RunSub(Marks(s), WideBlank, 1, Fixed(" "));
    if preserveCase then spaced else Lower(spaced)
  }

  /** step 9: `[ \t]+` to one blank, no blank before or after a line break, strip */
  function Trim(x: string): string {
    Strip(ReplaceAll(ReplaceAll(x, " \n", "\n"), "\n ", "\n"))
  }

  function Cleanup(s: string, preserveCase: bool): string {
    Trim(RunSub(Cased(s, preserveCase), BlankTab, 1, Fixed(" ")))
  }

  lemma CasedKeepsAbsent(s: string, preserveCase: bool, c: char)
    requires c != '.' && c != ' ' && !IsLower(c) && !ContainsChar(s, c)
    ensures !ContainsChar(Cased(s, preserveCase), c)
  {
    MarksKeepsAbsent(s, c);
    var marks := Marks(s);
    RunSubKeepsAbsent(marks, WideBlank, 1, Fixed(" "), c);
    if !preserveCase {
      LowerKeepsAbsent(RunSub(marks, WideBlank, 1, Fixed(" ")), c);
    }
  }

  lemma TrimKeepsAbsent(x: string, c: char)
    requires c != '\n' && !ContainsChar(x, c)
    ensures !ContainsChar(Trim(x), c)
  {
    ReplaceAllKeepsAbsent(x, " \n", "\n", c);
    ReplaceAllKeepsAbsent(ReplaceAll(x, " \n", "\n"), "\n ", "\n", c);
    StripKeepsAbsent(ReplaceAll(ReplaceAll(x, " \n", "\n"), "\n ", "\n"), c);
  }

  /** Without two adjacent blanks to start with, the trimmed text has no blank next to a line break. */
  lemma TrimShape(x: string)
    requires NoPair(x, ' ', ' ')
    ensures Strip(Trim(x)) == Trim(x)
    ensures NoPair(Trim(x), ' ', ' ') && NoPair(Trim(x), ' ', '\n') && NoPair(Trim(x), '\n', ' ')
  {
    var a := ReplaceAll(x, " \n", "\n");
    var b := ReplaceAll(a, "\n ", "\n");
    StripIdempotent(b);
    DropBlankBeforeBreak(x);
    DropBlankAfterBreak(a);
    StripKeepsNoPair(b, ' ', ' ');
    StripKeepsNoPair(b, ' ', '\n');
    StripKeepsNoPair(b, '\n', ' ');
  }

  /**
   * The clean-up creates only '.', ' ', '\n', lower-case letters and
   * characters it was given.
   */
  lemma CleanupKeepsAbsent(s: string, preserveCase: bool, c: char)
    requires c != '.' && c != ' ' && c != '\n' && !IsLower(c) && !ContainsChar(s, c)
    ensures !ContainsChar(Cleanup(s, preserveCase), c)
  {
    CasedKeepsAbsent(s, preserveCase, c);
    RunSubKeepsAbsent(Cased(s, preserveCase), BlankTab, 1, Fixed(" "), c);
    TrimKeepsAbsent(RunSub(Cased(s, preserveCase), BlankTab, 1, Fixed(" ")), c);
  }

  /**
   * The clean-up's output is stripped and holds no tab, no two adjacent
   * blanks and no blank next to a line break.
   */
  lemma CleanupShape(s: string, preserveCase: bool)
    ensures Strip(Cleanup(s, preserveCase)) == Cleanup(s, preserveCase)
    ensures !ContainsChar(Cleanup(s, preserveCase), '\t')
    ensures NoPair(Cleanup(s, preserveCase), ' ', ' ')
    ensures NoPair(Cleanup(s, preserveCase), ' ', '\n') && NoPair(Cleanup(s, preserveCase), '\n', ' ')
  {
    var cased := Cased(s, preserveCase);
    var squashed := RunSub(cased, BlankTab, 1, Fixed(" "));
    assert Cleanup(s, preserveCase) == Trim(squashed);
    RunSubRemoves(cased, BlankTab, " ", '\t');
    TrimKeepsAbsent(squashed, '\t');
    RunSubNoRun(cased, BlankTab, 1, Fixed(" "), 2);
    SquashedNoPair(squashed);
    TrimShape(squashed);
  }

  /** Without `preserve_case` no upper-case ASCII letter is left. */
  lemma CleanupLower(s: string)
    ensures forall i :: 0 <= i < |Cleanup(s, false)| ==> !IsUpper(Cleanup(s, false)[i])
  {
    var r := Cleanup(s, false);
    var cased := Cased(s, false);
    forall i | 0 <= i < |r| ensures !IsUpper(r[i]) {
      var c := r[i];
      assert ContainsChar(r, c);
      if IsUpper(c) {
        assert !ContainsChar(cased, c);
        RunSubKeepsAbsent(cased, BlankTab, 1, Fixed(" "), c);
        TrimKeepsAbsent(RunSub(cased, BlankTab, 1, Fixed(" ")), c);
      }
    }
  }

  /** the statistics keys `normalize` always sets */
  const AlwaysKeys: set<string> :=
    {"newlines_normalized", "punctuation_normalized", "numbers_normalized", "ellipsis_normalized", "total_changes"}

  /** one `for old, new in table.items()` loop: apply the table in order and count the replaced occurrences */
  method RunTable(s: string, table: seq<Rule>) returns (r: string, changes: nat)
    ensures r == ApplyTable(s, table) && changes == TableCount(s, table)
  {
    r := s;
    changes := 0;
    var i := 0;
    while i < |table|
      invariant 0 <= i <= |table|
      invariant r == ApplyTable(s, table[..i])
      invariant changes == TableCount(s, table[..i])
    {
      var e := table[i];
      assert table[..i + 1][..i] == table[..i];
      if Contains(r, e.key) {
        var count := CountOcc(r, e.key);
        r := ReplaceAll(r, e.key, e.value);
        changes := changes + count;
      }
      i := i + 1;
    }
    assert table[..i] == table;
  }

  /** The punctuation loop keeps the text free of '\r', keeps its full-width digits and removes its wide keys. */
  lemma PunctuationStage(t: string)
    requires !ContainsChar(t, '\r')
    ensures !ContainsChar(ApplyTable(t, PunctuationTable), '\r')
    ensures FullWidthCount(ApplyTable(t, PunctuationTable)) == FullWidthCount(t)
    ensures KeysGone(ApplyTable(t, PunctuationTable), PunctuationTable)
  {
    PunctuationTableInert();
    ApplyTableKeepsAbsent(t, PunctuationTable, '\r');
    ApplyTableKeepsFullWidth(t, PunctuationTable);
    ApplyTableRemovesKeys(t, PunctuationTable);
  }

  /** The number loop then counts every full-width digit and creates no '\r' and no wide key. */
  lemma NumberStage(p: string)
    requires !ContainsChar(p, '\r') && KeysGone(p, PunctuationTable)
    ensures TableCount(p, NumberTable) == FullWidthCount(p)
    ensures NoFullWidth(ApplyTable(p, NumberTable))
    ensures !ContainsChar(ApplyTable(p, NumberTable), '\r')
    ensures KeysGone(ApplyTable(p, NumberTable), PunctuationTable)
  {
    NumberTableCounts(p);
    assert PlainValues(NumberTable);
    ApplyTableKeepsAbsent(p, NumberTable, '\r');
    forall j | 0 <= j < |PunctuationTable| && WideKey(PunctuationTable[j])
      ensures !ContainsChar(ApplyTable(p, NumberTable), PunctuationTable[j].key[0])
    {
      ApplyTableKeepsAbsent(p, NumberTable, PunctuationTable[j].key[0]);
    }
  }

  /** The clean-up creates no '\r', no full-width digit and no wide key. */
  lemma CleanupStageA(n: string, preserveCase: bool)
    requires !ContainsChar(n, '\r')
    ensures !ContainsChar(Cleanup(n, preserveCase), '\r')
  {
    CleanupKeepsAbsent(n, preserveCase, '\r');
  }

  lemma CleanupStageB(n: string, preserveCase: bool)
    requires NoFullWidth(n)
    ensures NoFullWidth(Cleanup(n, preserveCase))
  {
    var r := Cleanup(n, preserveCase);
    forall k | 0 <= k < |r| ensures !IsFullWidthDigit(r[k]) {
      if IsFullWidthDigit(r[k]) {
        assert !ContainsChar(n, r[k]);
        CleanupKeepsAbsent(n, preserveCase, r[k]);
        assert ContainsChar(r, r[k]);
      }
    }
  }

  lemma CleanupStageC(n: string, preserveCase: bool)
    requires KeysGone(n, PunctuationTable)
    ensures KeysGone(Cleanup(n, preserveCase), PunctuationTable)
  {
    forall j | 0 <= j < |PunctuationTable| && WideKey(PunctuationTable[j])
      ensures !ContainsChar(Cleanup(n, preserveCase), PunctuationTable[j].key[0])
    {
      CleanupKeepsAbsent(n, preserveCase, PunctuationTable[j].key[0]);
    }
  }

  /**
   * the statistics dictionary `normalize` returns: the counter's keys are
   * the ones assigned, `bom_removed` only when a mark was removed and
   * `case_normalized` only when the text was lower-cased
   */
  function NormalizeStats(bomRemoved: bool, newlines: int, punct: int, numbers: int, ellipsis: int,
                          caseNormalized: bool, total: int): (m: map<string, int>)
    ensures m.Keys == AlwaysKeys + (if bomRemoved then {"bom_removed"} else {})
      + (if caseNormalized then {"case_normalized"} else {})
    ensures bomRemoved ==> m["bom_removed"] == 1
    ensures caseNormalized ==> m["case_normalized"] == 1
    ensures m["newlines_normalized"] == newlines && m["punctuation_normalized"] == punct
    ensures m["numbers_normalized"] == numbers && m["ellipsis_normalized"] == ellipsis
    ensures m["total_changes"] == total
  {
    var base := map["newlines_normalized" := newlines, "punctuation_normalized" := punct,
      "numbers_normalized" := numbers, "ellipsis_normalized" := ellipsis, "total_changes" := total];
    var withBom := if bomRemoved then base["bom_removed" := 1] else base;
    if caseNormalized then withBom["case_normalized" := 1] else withBom
  }

  /** step 1: the text without a leading byte-order mark */
  function Unmarked(text: string): string {
    if StartsWith(text, [Bom]) then text[1..] else text
  }

  /** step 2: "\r\n" and then "\r" become "\n" */
  function Unixed(t: string): string {
    ReplaceAll(ReplaceAll(t, "\r\n", "\n"), "\r", "\n")
  }

  /**
   * Steps 1 to 4 leave no '\r', no full-width digit and none of the
   * punctuation table's wide keys, and the digit loop counts every full-width
   * digit of the input.
   */
  lemma TablesStage(text: string, n: string)
    requires n == ApplyTable(ApplyTable(Unixed(Unmarked(text)), PunctuationTable), NumberTable)
    ensures !ContainsChar(n, '\r') && NoFullWidth(n) && KeysGone(n, PunctuationTable)
    ensures TableCount(ApplyTable(Unixed(Unmarked(text)), PunctuationTable), NumberTable) == FullWidthCount(text)
  {
    var t := Unmarked(text);
    if StartsWith(text, [Bom]) {
      assert text == text[..1] + t;
      FullWidthCountConcat(text[..1], t);
    }
    ReplaceKeepsFullWidth(t, "\r\n", "\n");
    ReplaceKeepsFullWidth(ReplaceAll(t, "\r\n", "\n"), "\r", "\n");
    ReplaceCharRemoves(ReplaceAll(t, "\r\n", "\n"), '\r', "\n");
    PunctuationStage(Unixed(t));
    NumberStage(ApplyTable(Unixed(t), PunctuationTable));
  }

  /**
   * What a normalized text looks like: no '\r', no full-width digit, none of
   * the punctuation table's wide keys, no upper case unless it was kept, no
   * blank or tab at the ends, no tab, no double blank and no blank next to a
   * line break.
   */
  lemma CleanupStage(n: string, preserveCase: bool)
    requires !ContainsChar(n, '\r') && NoFullWidth(n) && KeysGone(n, PunctuationTable)
    ensures !ContainsChar(Cleanup(n, preserveCase), '\r')
    ensures NoFullWidth(Cleanup(n, preserveCase)) && KeysGone(Cleanup(n, preserveCase), PunctuationTable)
    ensures !preserveCase ==> forall i :: 0 <= i < |Cleanup(n, false)| ==> !IsUpper(Cleanup(n, false)[i])
    ensures Strip(Cleanup(n, preserveCase)) == Cleanup(n, preserveCase) && !ContainsChar(Cleanup(n, preserveCase), '\t')
    ensures NoPair(Cleanup(n, preserveCase), ' ', ' ') && NoPair(Cleanup(n, preserveCase), ' ', '\n')
    ensures NoPair(Cleanup(n, preserveCase), '\n', ' ')
  {
    CleanupStageA(n, preserveCase);
    CleanupStageB(n, preserveCase);
    CleanupStageC(n, preserveCase);
    CleanupShape(n, preserveCase);
    if !preserveCase {
      CleanupLower(n);
    }
  }

  /**
   * `normalize(text, preserve_case)`: returns the normalized text and the
   * statistics dictionary: whether a byte-order mark went, the line endings
   * of the input, the replacements each table made (the digit count is the
   * number of full-width digits of the input), the ellipses found, whether
   * the case was lowered and the number of characters removed.
   */
  method Normalize(text: string, preserveCase: bool) returns (r: string, stats: map<string, int>)
    ensures r == Cleanup(ApplyTable(ApplyTable(Unixed(Unmarked(text)), PunctuationTable), NumberTable), preserveCase)
    ensures stats.Keys == AlwaysKeys + (if StartsWith(text, [Bom]) then {"bom_removed"} else {})
      + (if preserveCase then {} else {"case_normalized"})
    ensures StartsWith(text, [Bom]) ==> stats["bom_removed"] == 1
    ensures !preserveCase ==> stats["case_normalized"] == 1
    ensures stats["newlines_normalized"] == CountOcc(Unmarked(text), "\r\n") + CountOcc(Unmarked(text), "\r")
    ensures stats["punctuation_normalized"] == TableCount(Unixed(Unmarked(text)), PunctuationTable)
    ensures stats["numbers_normalized"] == FullWidthCount(text)
    ensures stats["ellipsis_normalized"]
      == EllipsisCount(ApplyTable(ApplyTable(Unixed(Unmarked(text)), PunctuationTable), NumberTable))
    ensures stats["total_changes"] == |text| - |r|
  {
    var originalLen := |text|;
    var t := text;

    // 1. the byte-order mark
    var bomRemoved := false;
    if StartsWith(t, [Bom]) {
      t := t[1..];
      bomRemoved := true;
    }

    // 2. line endings
    var originalNewlines := CountOcc(t, "\r\n") + CountOcc(t, "\r");
    t := ReplaceAll(t, "\r\n", "\n");
    t := ReplaceAll(t, "\r", "\n");

    // 3. punctuation
    var punctChanges;
    t, punctChanges := RunTable(t, PunctuationTable);

    // 4. full-width digits
    var numberChanges;
    t, numberChanges := RunTable(t, NumberTable);
    TablesStage(text, t);
    var tabled := t;

    // 5. to 9.
    var ellipsisCount := EllipsisCount(t);
    t := RunSub(RunSub(Ellipses(t), Bang, 2, LastOf), Dot, 4, Fixed("..."));
    t := RunSub(t, WideBlank, 1, Fixed(" "));
    if !preserveCase {
      t := Lower(t);
    }
    t := RunSub(t, BlankTab, 1, Fixed(" "));
    t := ReplaceAll(t, " \n", "\n");
    t := ReplaceAll(t, "\n ", "\n");
    t := Strip(t);
    assert t == Cleanup(tabled, preserveCase);

    r := t;
    stats := NormalizeStats(bomRemoved, originalNewlines, punctChanges, numberChanges, ellipsisCount,
      !preserveCase, originalLen - |r|);
  }

  // ------------------------------------------------------------------
  // `\b[a-zA-Z]+\b`: extract_words and get_word_positions

  /** the end of the run of ASCII letters starting at `i` */
  function LetterRun(s: string, i: nat): (j: nat)
    requires i <= |s|
    ensures i <= j <= |s|
    ensures forall k :: i <= k < j ==> IsLetter(s[k])
    ensures j == |s| || !IsLetter(s[j])
    decreases |s| - i
  {
    if i < |s| && IsLetter(s[i]) then LetterRun(s, i + 1) else i
  }

  /** `s[a:b]` is a whole word: letters only, and no word character on either side */
  predicate WordSpan(s: string, a: int, b: int) {
    0 <= a < b <= |s| && (forall k :: a <= k < b ==> IsLetter(s[k]))
    && (a == 0 || !IsWordChar(s[a - 1])) && (b == |s| || !IsWordChar(s[b]))
  }

  /** the spans `re.finditer` reports, scanning from `i` */
  function WordSpans(s: string, i: nat): (r: seq<(nat, nat)>)
    requires i <= |s|
    ensures forall p :: 0 <= p < |r| ==> i <= r[p].0 && WordSpan(s, r[p].0, r[p].1)
    ensures forall p, q :: 0 <= p < q < |r| ==> r[p].1 <= r[q].0
    decreases |s| - i
  {
    if i == |s| then []
    else if IsLetter(s[i]) && (i == 0 || !IsWordChar(s[i - 1])) then
      var j := LetterRun(s, i);
      if j == |s| || !IsWordChar(s[j]) then [(i, j)] + WordSpans(s, j) else WordSpans(s, i + 1)
    else WordSpans(s, i + 1)
  }

  /** Every whole word at or after `i` is found. */
  lemma {:induction false} WordSpansComplete(s: string, i: nat, a: nat, b: nat)
    requires i <= a && WordSpan(s, a, b)
    ensures (a, b) in WordSpans(s, i)
    decreases |s| - i
  {
    if i < a {
      if IsLetter(s[i]) && (i == 0 || !IsWordChar(s[i - 1])) {
        var j := LetterRun(s, i);
        if j == |s| || !IsWordChar(s[j]) {
          assert j <= a;
          WordSpansComplete(s, j, a, b);
          assert WordSpans(s, i) == [(i, j)] + WordSpans(s, j);
        } else {
          WordSpansComplete(s, i + 1, a, b);
          assert WordSpans(s, i) == WordSpans(s, i + 1);
        }
      } else {
        WordSpansComplete(s, i + 1, a, b);
        assert WordSpans(s, i) == WordSpans(s, i + 1);
      }
    } else {
      assert LetterRun(s, i) == b;
      assert WordSpans(s, i) == [(a, b)] + WordSpans(s, b);
    }
  }

  /** `extract_words(text)`: the whole words in order */
  function ExtractWords(text: string): (words: seq<string>)
    ensures |words| == |WordSpans(text, 0)|
    ensures forall k :: 0 <= k < |words| ==> words[k] == text[WordSpans(text, 0)[k].0..WordSpans(text, 0)[k].1]
  {
    var spans := WordSpans(text, 0);
    seq(|spans|, k requires 0 <= k < |spans| => text[spans[k].0..spans[k].1])
  }

  /** A word is extracted exactly when it is a maximal letter run with a word boundary on each side. */
  lemma ExtractWordsExact(text: string, a: nat, b: nat)
    ensures (a, b) in WordSpans(text, 0) <==> WordSpan(text, a, b)
  {
    if WordSpan(text, a, b) {
      WordSpansComplete(text, 0, a, b);
    }
  }

  /** one entry of `get_word_positions` */
  datatype WordPosition = WordPosition(word: string, start: nat, end: nat, line: nat, column: nat)

  function LinePositions(line: string, lineNum: nat): seq<WordPosition> {
    var spans := WordSpans(line, 0);
    seq(|spans|, k requires 0 <= k < |spans| =>
      WordPosition(line[spans[k].0..spans[k].1], spans[k].0, spans[k].1, lineNum, spans[k].0 + 1))
  }

  function PositionsOf(lines: seq<string>): seq<WordPosition> {
    if lines == [] then [] else PositionsOf(lines[..|lines| - 1]) + LinePositions(lines[|lines| - 1], |lines|)
  }

  /** `p` is a word of line `p.line` (counted from 1), at column `p.start + 1` */
  predicate PositionIn(lines: seq<string>, p: WordPosition) {
    1 <= p.line <= |lines| && p.column == p.start + 1
    && WordSpan(lines[p.line - 1], p.start, p.end) && p.word == lines[p.line - 1][p.start..p.end]
  }

  /** Each entry of one line's positions is a whole word of that line. */
  lemma LinePositionsFacts(lines: seq<string>, n: nat)
    requires 1 <= n <= |lines|
    ensures forall p :: p in LinePositions(lines[n - 1], n) ==> PositionIn(lines, p)
  {
    var line := lines[n - 1];
    var lp := LinePositions(line, n);
    forall p | p in lp ensures PositionIn(lines, p) {
      var k :| 0 <= k < |lp| && lp[k] == p;
      var spans := WordSpans(line, 0);
      assert p == WordPosition(line[spans[k].0..spans[k].1], spans[k].0, spans[k].1, n, spans[k].0 + 1);
    }
  }

  /**
   * Lines are numbered from 1, the column is the start plus one, and each
   * word is the whole word its line holds between start and end.
   */
  lemma {:induction false} PositionsFacts(lines: seq<string>)
    ensures forall p :: p in PositionsOf(lines) ==> PositionIn(lines, p)
  {
    if lines != [] {
      var front := lines[..|lines| - 1];
      PositionsFacts(front);
      LinePositionsFacts(lines, |lines|);
      forall p | p in PositionsOf(lines) ensures PositionIn(lines, p) {
        if p in PositionsOf(front) {
          assert PositionIn(front, p);
          assert lines[p.line - 1] == front[p.line - 1];
        }
      }
    }
  }

  /** `get_word_positions(text)` */
  method GetWordPositions(text: string) returns (positions: seq<WordPosition>)
    ensures positions == PositionsOf(SplitOn(text, '\n'))
  {
    var lines := SplitOn(text, '\n');
    positions := [];
    var n := 0;
    while n < |lines|
      invariant 0 <= n <= |lines|
      invariant positions == PositionsOf(lines[..n])
    {
      var line := lines[n];
      var spans := WordSpans(line, 0);
      ghost var done := positions;
      ghost var lp := LinePositions(line, n + 1);
      var k := 0;
      while k < |spans|
        invariant 0 <= k <= |spans|
        invariant positions == done + lp[..k]
      {
        var start := spans[k].0;
        var end := spans[k].1;
        positions := positions + [WordPosition(line[start..end], start, end, n + 1, start + 1)];
        assert lp[..k + 1] == lp[..k] + [lp[k]];
        k := k + 1;
      }
      assert lp[..k] == lp;
      assert lines[..n + 1][..n] == lines[..n];
      assert PositionsOf(lines[..n + 1]) == done + lp;
      n := n + 1;
    }
    assert lines[..n] == lines;
  }
}
