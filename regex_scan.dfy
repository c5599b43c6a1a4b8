/**
 * The regular-expression substitutions the text cleaners apply, each written
 * out as a left-to-right scanner with Python's `re.sub` semantics: matches are
 * found from the left, greedy, and never overlap; after a match the scan goes
 * on behind it, after a failed position it moves one character on. Also
 * `str.splitlines()`.
 */
module Scan {
  import opened PyText

  /** the one-character classes whose runs the cleaners rewrite */
  datatype Class =
    | Blank        // ` `
    | BlankTab     // `[ \t]`
    | WideBlank    // `[ \t\u00A0\u2000-\u200F\u2028-\u202F\u205F-\u206F\u3000]`
    | Dot          // `\.`
    | Bang         // `[!?]`
    | White        // `\s`
    | Listed       // `[\u0020\u00a0\u2002\u2003\u3000\t\r]`

  predicate In(k: Class, c: char) {
    match k
    case Blank => c == ' '
    case BlankTab => c == ' ' || c == '\t'
    case WideBlank =>
      c == ' ' || c == '\t' || c == '\U{a0}' || ('\U{2000}' <= c <= '\U{200f}') || ('\U{2028}' <= c <= '\U{202f}')
      || ('\U{205f}' <= c <= '\U{206f}') || c == '\U{3000}'
    case Dot => c == '.'
    case Bang => c == '!' || c == '?'
    case White => IsSpace(c)
    case Listed => c == ' ' || c == '\U{a0}' || c == '\U{2002}' || c == '\U{2003}' || c == '\U{3000}' || c == '\t' || c == '\r'
  }

  /** `re.sub(K, c, s)` for a one-character class K: each class character becomes `c` */
  function MapClass(s: string, k: Class, c: char): (r: string)
    ensures |r| == |s|
    ensures forall i :: 0 <= i < |s| ==> r[i] == if In(k, s[i]) then c else s[i]
  {
    if s == [] then [] else [if In(k, s[0]) then c else s[0]] + MapClass(s[1..], k, c)
  }

  /** A character absent from a string is absent from each of its suffixes. */
  lemma AbsentSuffix(s: string, d: nat, c: char)
    requires d <= |s| && !ContainsChar(s, c)
    ensures !ContainsChar(s[d..], c)
  {
    assert s == s[..d] + s[d..];
    ContainsCharConcat(s[..d], s[d..], c);
  }

  /** The class map creates no character but `c`. */
  lemma MapClassKeepsAbsent(s: string, k: Class, c: char, d: char)
    requires d != c && !ContainsChar(s, d)
    ensures !ContainsChar(MapClass(s, k, c), d)
  {
    var r := MapClass(s, k, c);
    forall i | 0 <= i < |r| ensures r[i] != d {
      assert r[i] == c || r[i] == s[i];
    }
  }

  /** the length of the run of class-`k` characters that starts `s` */
  function RunLen(s: string, k: Class): (n: nat)
    ensures n <= |s|
    ensures forall i :: 0 <= i < n ==> In(k, s[i])
    ensures n == |s| || !In(k, s[n])
  {
    if s != [] && In(k, s[0]) then 1 + RunLen(s[1..], k) else 0
  }

  lemma {:induction false} RunLenConcat(a: string, b: string, k: Class)
    ensures RunLen(a + b, k) == if RunLen(a, k) == |a| then |a| + RunLen(b, k) else RunLen(a, k)
  {
    if a != [] {
      assert (a + b)[1..] == a[1..] + b;
      RunLenConcat(a[1..], b, k);
    } else {
      assert a + b == b;
    }
  }

  /** the length of the run of class-`k` characters at index `i` of `s` */
  function RunAt(s: string, i: nat, k: Class): nat
    requires i <= |s|
  {
    RunLen(s[i..], k)
  }

  /** No run of `m` or more class-`k` characters starts anywhere in `s`. */
  predicate NoRun(s: string, k: Class, m: nat) {
    forall i :: 0 <= i < |s| ==> RunAt(s, i, k) < m
  }

  lemma NoRunSuffix(s: string, k: Class, m: nat, d: nat)
    requires NoRun(s, k, m) && d <= |s|
    ensures NoRun(s[d..], k, m)
  {
    forall i | 0 <= i < |s[d..]| ensures RunAt(s[d..], i, k) < m {
      assert s[d..][i..] == s[d + i..];
      assert RunAt(s, d + i, k) < m;
    }
  }

  lemma NoRunConcat(r: string, t: string, k: Class, m: nat)
    requires NoRun(t, k, m)
    requires forall i :: 0 <= i < |r| ==> RunAt(r + t, i, k) < m
    ensures NoRun(r + t, k, m)
  {
    forall i | 0 <= i < |r + t| ensures RunAt(r + t, i, k) < m {
      if i >= |r| {
        assert (r + t)[i..] == t[i - |r|..];
        assert RunAt(t, i - |r|, k) < m;
      }
    }
  }

  /** Inside a prefix made of class characters, every run reaches at most the prefix's end plus the run after it. */
  lemma ClassPrefixRuns(r: string, t: string, k: Class, m: nat)
    requires forall i :: 0 <= i < |r| ==> In(k, r[i])
    requires |r| + RunLen(t, k) < m
    ensures forall i :: 0 <= i < |r| ==> RunAt(r + t, i, k) < m
  {
    forall i | 0 <= i < |r| ensures RunAt(r + t, i, k) < m {
      assert (r + t)[i..] == r[i..] + t;
      RunLenConcat(r[i..], t, k);
      assert RunLen(r[i..], k) == |r| - i by {
        RunLenConcat(r[i..], [], k);
        assert r[i..] + [] == r[i..];
      }
    }
  }

  /** No run starts inside a prefix free of class characters. */
  lemma OutsidePrefixRuns(r: string, t: string, k: Class)
    requires forall i :: 0 <= i < |r| ==> !In(k, r[i])
    ensures forall i :: 0 <= i < |r| ==> RunAt(r + t, i, k) == 0
  {
    forall i | 0 <= i < |r| ensures RunAt(r + t, i, k) == 0 {
      assert (r + t)[i..][0] == r[i];
    }
  }

  /** the replacement of a run: a fixed string, or `\1` of a repeated one-character group (the run's last character) */
  datatype Rep = Fixed(r: string) | LastOf

  function RepOf(rep: Rep, run: string): string {
    match rep
    case Fixed(r) => r
    case LastOf => if run == [] then [] else [run[|run| - 1]]
  }

  /** `re.sub(K{min,}, rep, s)` for a class K: every maximal run of at least `min` characters is replaced */
  function RunSub(s: string, k: Class, min: nat, rep: Rep): string
    requires min >= 1
    decreases |s|
  {
    if s == [] then []
    else
      var n := RunLen(s, k);
      if n >= min then RepOf(rep, s[..n]) + RunSub(s[n..], k, min, rep)
      else [s[0]] + RunSub(s[1..], k, min, rep)
  }

  /** the number of matches `RunSub` replaces (`len(re.findall(...))`) */
  function RunCount(s: string, k: Class, min: nat): nat
    requires min >= 1
    decreases |s|
  {
    if s == [] then 0
    else
      var n := RunLen(s, k);
      if n >= min then 1 + RunCount(s[n..], k, min) else RunCount(s[1..], k, min)
  }

  /** the replacement consists of class characters and is shorter than `m` */
  predicate ShortRep(rep: Rep, k: Class, m: nat) {
    match rep
    case Fixed(r) => |r| < m && forall i :: 0 <= i < |r| ==> In(k, r[i])
    case LastOf => 1 < m
  }

  /** A replacement made of class characters is one run of its own length. */
  lemma RepIsRun(rep: Rep, k: Class, m: nat, run: string)
    requires ShortRep(rep, k, m)
    requires forall i :: 0 <= i < |run| ==> In(k, run[i])
    ensures forall i :: 0 <= i < |RepOf(rep, run)| ==> In(k, RepOf(rep, run)[i])
    ensures RunLen(RepOf(rep, run), k) == |RepOf(rep, run)| < m
  {
  }

  /** A leading run too short to be replaced is copied as it is. */
  lemma {:induction false} RunSubLeadShort(s: string, k: Class, min: nat, rep: Rep)
    requires min >= 1 && RunLen(s, k) < min
    ensures RunLen(RunSub(s, k, min, rep), k) == RunLen(s, k)
    decreases |s|
  {
    if s != [] {
      var t := RunSub(s[1..], k, min, rep);
      assert RunSub(s, k, min, rep) == [s[0]] + t;
      RunLenConcat([s[0]], t, k);
      if In(k, s[0]) {
        assert RunLen(s[1..], k) == RunLen(s, k) - 1;
        RunSubLeadShort(s[1..], k, min, rep);
      }
    }
  }

  /** A replaced leading run becomes the replacement, shorter than `m`. */
  lemma RunSubLeadLong(s: string, k: Class, min: nat, rep: Rep, m: nat)
    requires min >= 1 && ShortRep(rep, k, m) && RunLen(s, k) >= min
    ensures RunLen(RunSub(s, k, min, rep), k) < m
  {
    var n := RunLen(s, k);
    var r := RepOf(rep, s[..n]);
    var t := RunSub(s[n..], k, min, rep);
    assert RunSub(s, k, min, rep) == r + t;
    RunSubLeadShort(s[n..], k, min, rep);
    RunLenConcat(r, t, k);
    RepIsRun(rep, k, m, s[..n]);
  }

  /** The run leading the output: a replaced run becomes the replacement, a short one stays. */
  lemma RunSubLead(s: string, k: Class, min: nat, rep: Rep, m: nat)
    requires min >= 1 && ShortRep(rep, k, m)
    ensures RunLen(s, k) < min ==> RunLen(RunSub(s, k, min, rep), k) == RunLen(s, k)
    ensures RunLen(s, k) >= min ==> RunLen(RunSub(s, k, min, rep), k) < m
  {
    if RunLen(s, k) < min {
      RunSubLeadShort(s, k, min, rep);
    } else {
      RunSubLeadLong(s, k, min, rep, m);
    }
  }

  /**
   * When every run of at least `min` characters is replaced by fewer than `m`
   * class characters, and `min <= m`, no run of `m` remains.
   */
  lemma {:induction false} RunSubNoRun(s: string, k: Class, min: nat, rep: Rep, m: nat)
    requires 1 <= min <= m && ShortRep(rep, k, m)
    ensures NoRun(RunSub(s, k, min, rep), k, m)
    decreases |s|
  {
    if s != [] {
      var n := RunLen(s, k);
      if n >= min {
        var r := RepOf(rep, s[..n]);
        var t := RunSub(s[n..], k, min, rep);
        RunSubNoRun(s[n..], k, min, rep, m);
        RunSubLeadShort(s[n..], k, min, rep);
        RepIsRun(rep, k, m, s[..n]);
        ClassPrefixRuns(r, t, k, m);
        NoRunConcat(r, t, k, m);
      } else {
        var t := RunSub(s[1..], k, min, rep);
        RunSubNoRun(s[1..], k, min, rep, m);
        if In(k, s[0]) {
          assert RunLen(s[1..], k) == n - 1;
          RunSubLeadShort(s[1..], k, min, rep);
        }
        RunLenConcat([s[0]], t, k);
        assert [s[0]] + t == ([s[0]] + t)[0..];
        NoRunConcat([s[0]], t, k, m);
      }
    }
  }

  /** the first character of the output: the input's, or the replacement's */
  lemma RunSubFirst(s: string, k: Class, min: nat, rep: Rep)
    requires min >= 1 && s != []
    ensures var o := RunSub(s, k, min, rep);
      if RunLen(s, k) >= min then o == RepOf(rep, s[..RunLen(s, k)]) + RunSub(s[RunLen(s, k)..], k, min, rep)
      else o != [] && o[0] == s[0]
  {
  }

  /**
   * A run substitution whose replacement holds no class-`j` character and is
   * never empty keeps a string free of two adjacent class-`j` characters, when
   * the classes are disjoint.
   */
  lemma {:induction false} RunSubKeepsPairs(s: string, k: Class, min: nat, r: string, j: Class)
    requires min >= 1 && r != []
    requires forall i :: 0 <= i < |r| ==> !In(j, r[i])
    requires forall c: char :: !(In(k, c) && In(j, c))
    requires NoRun(s, j, 2)
    ensures NoRun(RunSub(s, k, min, Fixed(r)), j, 2)
    ensures s != [] ==> RunSub(s, k, min, Fixed(r)) != [] && (In(j, RunSub(s, k, min, Fixed(r))[0]) ==> In(j, s[0]))
    decreases |s|
  {
    if s != [] {
      var n := RunLen(s, k);
      assert RunAt(s, 0, j) < 2;
      assert s[0..] == s;
      if n >= min {
        var t := RunSub(s[n..], k, min, Fixed(r));
        NoRunSuffix(s, j, 2, n);
        RunSubKeepsPairs(s[n..], k, min, r, j);
        OutsidePrefixRuns(r, t, j);
        NoRunConcat(r, t, j, 2);
      } else {
        var t := RunSub(s[1..], k, min, Fixed(r));
        NoRunSuffix(s, j, 2, 1);
        RunSubKeepsPairs(s[1..], k, min, r, j);
        if In(j, s[0]) && |s| > 1 {
          assert s[1..][0] == s[1];
          assert !In(j, s[1]);
        }
        RunLenConcat([s[0]], t, j);
        assert [s[0]] + t == ([s[0]] + t)[0..];
        NoRunConcat([s[0]], t, j, 2);
      }
    }
  }

  /** With `min` = 1, a class character that the replacement lacks is gone. */
  lemma {:induction false} RunSubRemoves(s: string, k: Class, r: string, c: char)
    requires In(k, c) && !ContainsChar(r, c)
    ensures !ContainsChar(RunSub(s, k, 1, Fixed(r)), c)
    decreases |s|
  {
    if s != [] {
      var n := RunLen(s, k);
      if n >= 1 {
        RunSubRemoves(s[n..], k, r, c);
        var t := RunSub(s[n..], k, 1, Fixed(r));
        forall i | 0 <= i < |r + t| ensures (r + t)[i] != c {
          if i >= |r| { assert (r + t)[i] == t[i - |r|]; }
        }
      } else {
        RunSubRemoves(s[1..], k, r, c);
        var t := RunSub(s[1..], k, 1, Fixed(r));
        forall i | 0 <= i < |[s[0]] + t| ensures ([s[0]] + t)[i] != c {
          if i >= 1 { assert ([s[0]] + t)[i] == t[i - 1]; }
        }
      }
    }
  }

  /** The replacement of a run holds no character that the run and a fixed replacement lack. */
  lemma RepOfAbsent(rep: Rep, run: string, c: char)
    requires !ContainsChar(run, c)
    requires rep.Fixed? ==> !ContainsChar(rep.r, c)
    ensures !ContainsChar(RepOf(rep, run), c)
  {
    if rep.LastOf? && run != [] {
      assert RepOf(rep, run)[0] == run[|run| - 1];
    }
  }

  /** A run substitution creates no character that neither the input nor a fixed replacement holds. */
  lemma {:induction false} RunSubKeepsAbsent(s: string, k: Class, min: nat, rep: Rep, c: char)
    requires min >= 1 && !ContainsChar(s, c)
    requires rep.Fixed? ==> !ContainsChar(rep.r, c)
    ensures !ContainsChar(RunSub(s, k, min, rep), c)
    decreases |s|
  {
    if s != [] {
      var n := RunLen(s, k);
      var d := if n >= min then n else 1;
      var h := if n >= min then RepOf(rep, s[..d]) else [s[0]];
      AbsentSuffix(s, d, c);
      RunSubKeepsAbsent(s[d..], k, min, rep, c);
      if n >= min {
        assert s == s[..d] + s[d..];
        ContainsCharConcat(s[..d], s[d..], c);
        RepOfAbsent(rep, s[..d], c);
      }
      assert RunSub(s, k, min, rep) == h + RunSub(s[d..], k, min, rep);
      ContainsCharConcat(h, RunSub(s[d..], k, min, rep), c);
    }
  }

  /** A string with no two adjacent blanks is left alone by `re.sub(" +", " ", s)`. */
  lemma {:induction false} SquashFixed(s: string)
    requires NoRun(s, Blank, 2)
    ensures RunSub(s, Blank, 1, Fixed(" ")) == s
    decreases |s|
  {
    if s != [] {
      assert RunAt(s, 0, Blank) < 2;
      assert s[0..] == s;
      var n := RunLen(s, Blank);
      if n == 0 {
        NoRunSuffix(s, Blank, 2, 1);
        SquashFixed(s[1..]);
        assert s == [s[0]] + s[1..];
      } else {
        NoRunSuffix(s, Blank, 2, n);
        SquashFixed(s[n..]);
        assert s[..1] == " ";
        assert s == s[..1] + s[1..];
      }
    }
  }

  // ------------------------------------------------------------------
  // Ellipses: `\.{3,}|。{3,}|…+` becomes "..."

  /** the length of the run of copies of `s[0]` that starts `s` */
  function SameRun(s: string): (n: nat)
    requires s != []
    ensures 1 <= n <= |s|
    ensures forall i :: 0 <= i < n ==> s[i] == s[0]
    ensures n == |s| || s[n] != s[0]
  {
    if |s| > 1 && s[1] == s[0] then 1 + SameRun(s[1..]) else 1
  }

  predicate EllipsisAt(s: string)
    requires s != []
  {
    ((s[0] == '.' || s[0] == '。') && SameRun(s) >= 3) || s[0] == '…'
  }

  function Ellipses(s: string): string
    decreases |s|
  {
    if s == [] then []
    else if EllipsisAt(s) then "..." + Ellipses(s[SameRun(s)..])
    else [s[0]] + Ellipses(s[1..])
  }

  function EllipsisCount(s: string): nat
    decreases |s|
  {
    if s == [] then 0
    else if EllipsisAt(s) then 1 + EllipsisCount(s[SameRun(s)..])
    else EllipsisCount(s[1..])
  }

  /** No horizontal ellipsis survives, and nothing but the runs changes: removing them leaves what it did. */
  lemma {:induction false} EllipsesRemove(s: string)
    ensures !ContainsChar(Ellipses(s), '…')
    ensures |Ellipses(s)| <= |s| + 2 * EllipsisCount(s)
    decreases |s|
  {
    if s != [] {
      var n := SameRun(s);
      var t := if EllipsisAt(s) then Ellipses(s[n..]) else Ellipses(s[1..]);
      var h := if EllipsisAt(s) then "..." else [s[0]];
      if EllipsisAt(s) { EllipsesRemove(s[n..]); } else { EllipsesRemove(s[1..]); }
      assert !ContainsChar(h, '…');
      ContainsCharConcat(h, t, '…');
    }
  }

  /** The ellipsis substitution creates no character other than '.'. */
  lemma {:induction false} EllipsesKeepsAbsent(s: string, c: char)
    requires c != '.' && !ContainsChar(s, c)
    ensures !ContainsChar(Ellipses(s), c)
    decreases |s|
  {
    if s != [] {
      var n := SameRun(s);
      var d := if EllipsisAt(s) then n else 1;
      assert !ContainsChar(s[d..], c) by { ContainsCharConcat(s[..d], s[d..], c); assert s == s[..d] + s[d..]; }
      EllipsesKeepsAbsent(s[d..], c);
      var h := if EllipsisAt(s) then "..." else [s[0]];
      ContainsCharConcat(h, Ellipses(s[d..]), c);
    }
  }

  /** the ellipsis substitution, then `([!?]){2,}` to `\1` and `(\.{3})[.]+` to `\1` */
  function Marks(s: string): string {
    RunSub(RunSub(Ellipses(s), Bang, 2, LastOf), Dot, 4, Fixed("..."))
  }

  /** No '…' survives, no two '!' or '?' stand together and no run of dots is longer than three. */
  lemma MarksFacts(s: string)
    ensures !ContainsChar(Marks(s), '…')
    ensures NoRun(Marks(s), Bang, 2) && NoRun(Marks(s), Dot, 4)
  {
    var e := Ellipses(s);
    EllipsesRemove(s);
    var b := RunSub(e, Bang, 2, LastOf);
    RunSubKeepsAbsent(e, Bang, 2, LastOf, '…');
    RunSubNoRun(e, Bang, 2, LastOf, 2);
    RunSubKeepsAbsent(b, Dot, 4, Fixed("..."), '…');
    RunSubNoRun(b, Dot, 4, Fixed("..."), 4);
    RunSubKeepsPairs(b, Dot, 4, "...", Bang);
  }

  /** The mark substitutions create no character but '.'. */
  lemma MarksKeepsAbsent(s: string, c: char)
    requires c != '.' && !ContainsChar(s, c)
    ensures !ContainsChar(Marks(s), c)
  {
    EllipsesKeepsAbsent(s, c);
    RunSubKeepsAbsent(Ellipses(s), Bang, 2, LastOf, c);
    RunSubKeepsAbsent(RunSub(Ellipses(s), Bang, 2, LastOf), Dot, 4, Fixed("..."), c);
  }

  // ------------------------------------------------------------------
  // `(P)(Q)` becomes `\1 \2`

  /** the adjacent-class pairs the cleaners separate with a space */
  datatype Gap = HanLatin | LatinHan | PunctHan

  predicate IsHan(c: char) { '\U{4e00}' <= c <= '\U{9fff}' }

  predicate GapAt(g: Gap, x: char, y: char) {
    match g
    case HanLatin => IsHan(x) && IsLetter(y)
    case LatinHan => IsLetter(x) && IsHan(y)
    case PunctHan => (x == ',' || x == ':' || x == ';' || x == '.' || x == '!' || x == '?') && IsHan(y)
  }

  function InsertGaps(s: string, g: Gap): string
    decreases |s|
  {
    if |s| >= 2 && GapAt(g, s[0], s[1]) then [s[0], ' ', s[1]] + InsertGaps(s[2..], g)
    else if s == [] then []
    else [s[0]] + InsertGaps(s[1..], g)
  }

  /** No two adjacent characters of `s` form the pair `g`. */
  predicate NoGap(s: string, g: Gap) {
    forall i :: 0 <= i < |s| - 1 ==> !GapAt(g, s[i], s[i + 1])
  }

  /** After the substitution no such pair is adjacent, and the output starts like the input. */
  lemma {:induction false} InsertGapsSeparates(s: string, g: Gap)
    ensures NoGap(InsertGaps(s, g), g)
    ensures |InsertGaps(s, g)| >= |s|
    ensures s != [] ==> InsertGaps(s, g)[0] == s[0]
    decreases |s|
  {
    if |s| >= 2 && GapAt(g, s[0], s[1]) {
      InsertGapsSeparates(s[2..], g);
      var t := InsertGaps(s[2..], g);
      var o := [s[0], ' ', s[1]] + t;
      forall i | 0 <= i < |o| - 1 ensures !GapAt(g, o[i], o[i + 1]) {
        if i >= 3 {
          assert o[i] == t[i - 3] && o[i + 1] == t[i - 2];
        } else if i == 2 && t != [] {
          assert o[i + 1] == t[0];
        }
      }
    } else if s != [] {
      InsertGapsSeparates(s[1..], g);
      var t := InsertGaps(s[1..], g);
      var o := [s[0]] + t;
      forall i | 0 <= i < |o| - 1 ensures !GapAt(g, o[i], o[i + 1]) {
        if i >= 1 {
          assert o[i] == t[i - 1] && o[i + 1] == t[i];
        } else {
          assert o[1] == s[1];
        }
      }
    }
  }

  /** The substitution adds only blanks. */
  lemma {:induction false} InsertGapsKeepsAbsent(s: string, g: Gap, c: char)
    requires c != ' ' && !ContainsChar(s, c)
    ensures !ContainsChar(InsertGaps(s, g), c)
    decreases |s|
  {
    if |s| >= 2 && GapAt(g, s[0], s[1]) {
      AbsentSuffix(s, 2, c);
      InsertGapsKeepsAbsent(s[2..], g, c);
      assert s[0] != c && s[1] != c;
      ContainsCharConcat([s[0], ' ', s[1]], InsertGaps(s[2..], g), c);
    } else if s != [] {
      AbsentSuffix(s, 1, c);
      InsertGapsKeepsAbsent(s[1..], g, c);
      ContainsCharConcat([s[0]], InsertGaps(s[1..], g), c);
    }
  }

  // ------------------------------------------------------------------
  // `\( +` becomes "(", ` +\)` becomes ")"

  function OpenParens(s: string): string
    decreases |s|
  {
    if s == [] then []
    else if s[0] == '(' && RunLen(s[1..], Blank) >= 1 then "(" + OpenParens(s[1 + RunLen(s[1..], Blank)..])
    else [s[0]] + OpenParens(s[1..])
  }

  function CloseParens(s: string): string
    decreases |s|
  {
    if s == [] then []
    else if s[0] == ' ' && RunLen(s, Blank) < |s| && s[RunLen(s, Blank)] == ')' then ")" + CloseParens(s[RunLen(s, Blank) + 1..])
    else [s[0]] + CloseParens(s[1..])
  }

  /** After `\( +` no blank follows an opening parenthesis. */
  lemma {:induction false} OpenParensTrims(s: string)
    ensures forall i :: 0 <= i < |OpenParens(s)| - 1 ==> !(OpenParens(s)[i] == '(' && OpenParens(s)[i + 1] == ' ')
    ensures s != [] ==> OpenParens(s) != [] && OpenParens(s)[0] == s[0]
    decreases |s|
  {
    if s != [] {
      var o := OpenParens(s);
      if s[0] == '(' && RunLen(s[1..], Blank) >= 1 {
        var rest := s[1 + RunLen(s[1..], Blank)..];
        OpenParensTrims(rest);
        var t := OpenParens(rest);
        assert o == "(" + t;
        if rest != [] {
          assert rest[0] == s[1..][RunLen(s[1..], Blank)];
        }
        forall i | 0 <= i < |o| - 1 ensures !(o[i] == '(' && o[i + 1] == ' ') {
          if i >= 1 { assert o[i] == t[i - 1] && o[i + 1] == t[i]; } else { assert o[1] == t[0]; }
        }
      } else {
        OpenParensTrims(s[1..]);
        var t := OpenParens(s[1..]);
        assert o == [s[0]] + t;
        forall i | 0 <= i < |o| - 1 ensures !(o[i] == '(' && o[i + 1] == ' ') {
          if i >= 1 {
            assert o[i] == t[i - 1] && o[i + 1] == t[i];
          } else if s[0] == '(' {
            assert o[1] == s[1..][0];
          }
        }
      }
    }
  }

  /** Both parenthesis substitutions only delete blanks. */
  lemma {:induction false} OpenParensKeepsAbsent(s: string, c: char)
    requires !ContainsChar(s, c)
    ensures !ContainsChar(OpenParens(s), c)
    decreases |s|
  {
    if s != [] {
      var d := if s[0] == '(' && RunLen(s[1..], Blank) >= 1 then 1 + RunLen(s[1..], Blank) else 1;
      AbsentSuffix(s, d, c);
      OpenParensKeepsAbsent(s[d..], c);
      ContainsCharConcat([s[0]], OpenParens(s[d..]), c);
    }
  }

  lemma {:induction false} CloseParensKeepsAbsent(s: string, c: char)
    requires !ContainsChar(s, c)
    ensures !ContainsChar(CloseParens(s), c)
    decreases |s|
  {
    if s != [] {
      if s[0] == ' ' && RunLen(s, Blank) < |s| && s[RunLen(s, Blank)] == ')' {
        var d := RunLen(s, Blank) + 1;
        AbsentSuffix(s, d, c);
        CloseParensKeepsAbsent(s[d..], c);
        ContainsCharConcat(")", CloseParens(s[d..]), c);
      } else {
        AbsentSuffix(s, 1, c);
        CloseParensKeepsAbsent(s[1..], c);
        ContainsCharConcat([s[0]], CloseParens(s[1..]), c);
      }
    }
  }

  // ------------------------------------------------------------------
  // `([.!?])\s*([A-Z])` becomes `\1\n\2`

  predicate IsMark(c: char) { c == '.' || c == '!' || c == '?' }

  /** a mark, its whitespace run and a capital start `s` */
  predicate CapitalAfterMark(s: string) {
    |s| >= 2 && IsMark(s[0]) && 1 + RunLen(s[1..], White) < |s| && IsUpper(s[1 + RunLen(s[1..], White)])
  }

  function SentenceBreaks(s: string): string
    decreases |s|
  {
    if s == [] then []
    else if CapitalAfterMark(s) then
      var w := RunLen(s[1..], White);
      [s[0], '\n', s[1 + w]] + SentenceBreaks(s[2 + w..])
    else [s[0]] + SentenceBreaks(s[1..])
  }

  /** At a mark, the gap before a following capital is exactly one line break. */
  predicate BrokenAt(o: string, i: nat)
    requires i < |o|
  {
    CapitalAfterMark(o[i..]) ==> o[i + 1] == '\n' && RunLen(o[i + 1..], White) == 1
  }

  /** Characters that start no match are copied as they are. */
  lemma {:induction false} SentenceBreaksCopies(w: string, z: string)
    requires forall i :: 0 <= i < |w| ==> !IsMark(w[i])
    ensures SentenceBreaks(w + z) == w + SentenceBreaks(z)
    decreases |w|
  {
    if w != [] {
      assert (w + z)[1..] == w[1..] + z;
      SentenceBreaksCopies(w[1..], z);
    } else {
      assert w + z == z;
    }
  }

  lemma SentenceBreaksFirst(s: string)
    requires s != []
    ensures SentenceBreaks(s) != [] && SentenceBreaks(s)[0] == s[0]
  {
  }

  predicate AllBroken(o: string) {
    forall i :: 0 <= i < |o| ==> BrokenAt(o, i)
  }

  lemma BrokenConcat(r: string, t: string)
    requires AllBroken(t)
    requires forall i :: 0 <= i < |r| ==> BrokenAt(r + t, i)
    ensures AllBroken(r + t)
  {
    forall i | 0 <= i < |r + t| ensures BrokenAt(r + t, i) {
      if i >= |r| {
        assert (r + t)[i..] == t[i - |r|..];
        assert (r + t)[i + 1..] == t[i - |r| + 1..];
        assert BrokenAt(t, i - |r|);
      }
    }
  }

  /** the three characters a match is replaced by are broken correctly */
  lemma BrokenReplacement(c: char, d: char, t: string)
    requires IsUpper(d)
    ensures forall i :: 0 <= i < 3 ==> BrokenAt([c, '\n', d] + t, i)
  {
    var o := [c, '\n', d] + t;
    assert o[0..] == o;
    assert o[1..][1..] == o[2..];
    assert !IsSpace(o[2..][0]);
    assert RunLen(o[2..], White) == 0;
    assert !IsMark(o[1..][0]) && !IsMark(o[2..][0]);
  }

  /** The substitution copies a leading whitespace run and the character after it. */
  lemma SentenceBreaksLead(u: string, w: nat)
    requires w == RunLen(u, White)
    ensures RunLen(SentenceBreaks(u), White) == w
    ensures w < |u| ==> w < |SentenceBreaks(u)| && SentenceBreaks(u)[w] == u[w]
    ensures w == |u| ==> |SentenceBreaks(u)| == w
  {
    assert u == u[..w] + u[w..];
    forall j | 0 <= j < |u[..w]| ensures !IsMark(u[..w][j]) {
      assert In(White, u[j]);
    }
    SentenceBreaksCopies(u[..w], u[w..]);
    var t := SentenceBreaks(u[w..]);
    if u[w..] != [] {
      SentenceBreaksFirst(u[w..]);
      assert !In(White, t[0]);
    }
    RunLenConcat(u[..w], t, White);
  }

  /** A mark that starts no match is not followed by whitespace and a capital in the output either. */
  lemma BrokenUnmatched(s: string)
    requires s != [] && !CapitalAfterMark(s)
    ensures BrokenAt([s[0]] + SentenceBreaks(s[1..]), 0)
  {
    var o := [s[0]] + SentenceBreaks(s[1..]);
    assert o[0..] == o;
    if |s| >= 2 && IsMark(s[0]) {
      var u := s[1..];
      SentenceBreaksLead(u, RunLen(u, White));
      assert o[1..] == SentenceBreaks(u);
    }
  }

  /**
   * Wherever a '.', '!' or '?' is followed by optional whitespace and an
   * uppercase letter, the whitespace is exactly one line break.
   */
  lemma {:induction false} SentenceBreaksBreak(s: string)
    ensures AllBroken(SentenceBreaks(s))
    decreases |s|
  {
    if s != [] {
      if CapitalAfterMark(s) {
        var w := RunLen(s[1..], White);
        SentenceBreaksBreak(s[2 + w..]);
        BrokenReplacement(s[0], s[1 + w], SentenceBreaks(s[2 + w..]));
        BrokenConcat([s[0], '\n', s[1 + w]], SentenceBreaks(s[2 + w..]));
      } else {
        SentenceBreaksBreak(s[1..]);
        BrokenUnmatched(s);
        BrokenConcat([s[0]], SentenceBreaks(s[1..]));
      }
    }
  }

  /** The substitution adds only line breaks. */
  lemma {:induction false} SentenceBreaksKeepsAbsent(s: string, c: char)
    requires c != '\n' && !ContainsChar(s, c)
    ensures !ContainsChar(SentenceBreaks(s), c)
    decreases |s|
  {
    if s != [] {
      if CapitalAfterMark(s) {
        var w := RunLen(s[1..], White);
        AbsentSuffix(s, 2 + w, c);
        SentenceBreaksKeepsAbsent(s[2 + w..], c);
        assert s[0] != c && s[1 + w] != c;
        ContainsCharConcat([s[0], '\n', s[1 + w]], SentenceBreaks(s[2 + w..]), c);
      } else {
        AbsentSuffix(s, 1, c);
        SentenceBreaksKeepsAbsent(s[1..], c);
        ContainsCharConcat([s[0]], SentenceBreaks(s[1..]), c);
      }
    }
  }

  // ------------------------------------------------------------------
  // `\n\s*\n` becomes "\n\n"

  /** the index just after the last line break in the whitespace run leading `t`, or 0 */
  function LastBreakEnd(t: string, n: nat): (e: nat)
    requires n <= |t|
    ensures e <= n
    ensures e > 0 ==> t[e - 1] == '\n'
    ensures forall i :: e <= i < n ==> t[i] != '\n'
  {
    if n == 0 then 0 else if t[n - 1] == '\n' then n else LastBreakEnd(t, n - 1)
  }

  /** where the match at `s` (a line break, whitespace, a line break) ends, or 0 */
  function BlankMatchEnd(s: string): nat
    requires s != []
  {
    if s[0] == '\n' then
      var e := LastBreakEnd(s[1..], RunLen(s[1..], White));
      if e > 0 then 1 + e else 0
    else 0
  }

  function BlankLines(s: string): string
    decreases |s|
  {
    if s == [] then []
    else if BlankMatchEnd(s) > 0 then
      assert BlankMatchEnd(s) <= |s|;
      "\n\n" + BlankLines(s[BlankMatchEnd(s)..])
    else [s[0]] + BlankLines(s[1..])
  }

  predicate OneBlankAt(o: string, i: nat)
    requires i < |o|
  {
    o[i] == '\n' ==>
      (!HasBreak(o[i + 1..], RunLen(o[i + 1..], White))
       || (i + 1 < |o| && !HasBreak(o[i + 2..], RunLen(o[i + 2..], White))))
  }

  predicate AllOneBlank(o: string) {
    forall i :: 0 <= i < |o| ==> OneBlankAt(o, i)
  }

  lemma OneBlankConcat(r: string, t: string)
    requires AllOneBlank(t)
    requires forall i :: 0 <= i < |r| ==> OneBlankAt(r + t, i)
    ensures AllOneBlank(r + t)
  {
    forall i | 0 <= i < |r + t| ensures OneBlankAt(r + t, i) {
      if i >= |r| {
        assert (r + t)[i + 1..] == t[i - |r| + 1..];
        assert i + 1 < |r + t| ==> (r + t)[i + 2..] == t[i - |r| + 2..];
        assert OneBlankAt(t, i - |r|);
      }
    }
  }

  predicate HasBreak(t: string, n: nat)
    requires n <= |t|
  {
    exists i :: 0 <= i < n && t[i] == '\n'
  }

  lemma {:induction false} BlankLinesCopies(w: string, z: string)
    requires forall i :: 0 <= i < |w| ==> w[i] != '\n'
    ensures BlankLines(w + z) == w + BlankLines(z)
    decreases |w|
  {
    if w != [] {
      assert (w + z)[1..] == w[1..] + z;
      BlankLinesCopies(w[1..], z);
    } else {
      assert w + z == z;
    }
  }

  /** When the leading whitespace holds no line break, neither does the output's. */
  lemma BlankLinesNoLeadBreak(u: string)
    requires !HasBreak(u, RunLen(u, White))
    ensures !HasBreak(BlankLines(u), RunLen(BlankLines(u), White))
  {
    var r := RunLen(u, White);
    assert u == u[..r] + u[r..];
    BlankLinesCopies(u[..r], u[r..]);
    var z := BlankLines(u[r..]);
    RunLenConcat(u[..r], z, White);
    if u[r..] != [] {
      assert z != [] && z[0] == u[r];
    }
    assert BlankLines(u) == u[..r] + z;
    forall i | 0 <= i < RunLen(BlankLines(u), White) ensures BlankLines(u)[i] != '\n' {
      assert BlankLines(u)[i] == u[i];
    }
  }

  /** Dropping `e` characters of a leading run shortens it by `e`. */
  lemma {:induction false} RunLenSuffix(u: string, e: nat, k: Class)
    requires e <= RunLen(u, k)
    ensures RunLen(u[e..], k) == RunLen(u, k) - e
  {
    if e > 0 {
      assert u[e..] == u[1..][e - 1..];
      RunLenSuffix(u[1..], e - 1, k);
    }
  }

  lemma BlankMatchRest(s: string)
    requires s != [] && BlankMatchEnd(s) > 0
    ensures BlankMatchEnd(s) <= |s|
    ensures !HasBreak(s[BlankMatchEnd(s)..], RunLen(s[BlankMatchEnd(s)..], White))
  {
    var u := s[1..];
    var n := RunLen(u, White);
    var e := LastBreakEnd(u, n);
    assert BlankMatchEnd(s) == 1 + e;
    var rest := s[e + 1..];
    assert rest == u[e..];
    RunLenSuffix(u, e, White);
    forall i | 0 <= i < n - e ensures rest[i] != '\n' {
      assert rest[i] == u[e + i];
    }
  }

  /** After the substitution, wherever a line break stands, the blank lines that follow number at most one. */
  lemma {:induction false} BlankLinesCollapse(s: string)
    ensures AllOneBlank(BlankLines(s))
    decreases |s|
  {
    if s != [] {
      var m := BlankMatchEnd(s);
      if m > 0 {
        BlankMatchRest(s);
        var t := BlankLines(s[m..]);
        BlankLinesCollapse(s[m..]);
        BlankLinesNoLeadBreak(s[m..]);
        assert ("\n\n" + t)[2..] == t;
        OneBlankConcat("\n\n", t);
      } else {
        var t := BlankLines(s[1..]);
        BlankLinesCollapse(s[1..]);
        if s[0] == '\n' {
          assert !HasBreak(s[1..], RunLen(s[1..], White));
          BlankLinesNoLeadBreak(s[1..]);
        }
        assert ([s[0]] + t)[1..] == t;
        OneBlankConcat([s[0]], t);
      }
    }
  }

  /** The substitution adds only line breaks. */
  lemma {:induction false} BlankLinesKeepsAbsent(s: string, c: char)
    requires c != '\n' && !ContainsChar(s, c)
    ensures !ContainsChar(BlankLines(s), c)
    decreases |s|
  {
    if s != [] {
      var d := if BlankMatchEnd(s) > 0 then BlankMatchEnd(s) else 1;
      assert d <= |s|;
      AbsentSuffix(s, d, c);
      BlankLinesKeepsAbsent(s[d..], c);
      var h := if BlankMatchEnd(s) > 0 then "\n\n" else [s[0]];
      ContainsCharConcat(h, BlankLines(s[d..]), c);
    }
  }

  // ------------------------------------------------------------------
  // `str.splitlines()`

  /** the characters `str.splitlines()` breaks at */
  predicate IsLineBoundary(c: char) {
    c == '\n' || c == '\r' || c == '\U{b}' || c == '\U{c}' || c == '\U{1c}' || c == '\U{1d}' || c == '\U{1e}'
    || c == '\U{85}' || c == '\U{2028}' || c == '\U{2029}'
  }

  /** the index of the first line boundary in `s`, or |s| */
  function LineEnd(s: string): (n: nat)
    ensures n <= |s|
    ensures forall i :: 0 <= i < n ==> !IsLineBoundary(s[i])
    ensures n == |s| || IsLineBoundary(s[n])
  {
    if s == [] || IsLineBoundary(s[0]) then 0 else 1 + LineEnd(s[1..])
  }

  /** `s.splitlines()`: "\r\n" is one boundary, and a final boundary opens no empty line */
  function SplitLines(s: string): (r: seq<string>)
    ensures forall j, i :: 0 <= j < |r| && 0 <= i < |r[j]| ==> !IsLineBoundary(r[j][i])
    decreases |s|
  {
    if s == [] then []
    else
      var n := LineEnd(s);
      if n == |s| then [s]
      else
        var w := if s[n] == '\r' && n + 1 < |s| && s[n + 1] == '\n' then 2 else 1;
        [s[..n]] + SplitLines(s[n + w..])
  }

  /** A text without boundaries is one line, or none when empty. */
  lemma SplitLinesPlain(s: string)
    requires forall i :: 0 <= i < |s| ==> !IsLineBoundary(s[i])
    ensures SplitLines(s) == if s == [] then [] else [s]
  {
  }

  /** Each line holds only characters of the text. */
  lemma {:induction false} SplitLinesKeepsAbsent(s: string, c: char)
    requires !ContainsChar(s, c)
    ensures forall j :: 0 <= j < |SplitLines(s)| ==> !ContainsChar(SplitLines(s)[j], c)
    decreases |s|
  {
    if s != [] {
      var n := LineEnd(s);
      assert s == s[..n] + s[n..];
      ContainsCharConcat(s[..n], s[n..], c);
      if n < |s| {
        var w := if s[n] == '\r' && n + 1 < |s| && s[n + 1] == '\n' then 2 else 1;
        AbsentSuffix(s, n + w, c);
        SplitLinesKeepsAbsent(s[n + w..], c);
        assert SplitLines(s) == [s[..n]] + SplitLines(s[n + w..]);
      }
    }
  }
}
