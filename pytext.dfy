/**
 * The Python `str` operations the text cores rely on, over `seq<char>`.
 * Whitespace follows `str.isspace()`; letters, digits and case are ASCII
 * (plus the CJK ideographs U+4E00..U+9FFF as alphanumeric), see README.
 */
module PyText {

  /** `str.isspace()` for one character. */
  predicate IsSpace(c: char) {
    c == ' ' || ('\t' <= c <= '\r') || ('\U{1c}' <= c <= '\U{1f}') || c == '\U{85}'
    || c == '\U{a0}' || c == '\U{1680}' || ('\U{2000}' <= c <= '\U{200a}')
    || c == '\U{2028}' || c == '\U{2029}' || c == '\U{202f}' || c == '\U{205f}'
    || c == '\U{3000}'
  }

  predicate IsDigit(c: char) { '0' <= c <= '9' }
  predicate IsUpper(c: char) { 'A' <= c <= 'Z' }
  predicate IsLower(c: char) { 'a' <= c <= 'z' }
  predicate IsLetter(c: char) { IsUpper(c) || IsLower(c) }
  predicate IsCjk(c: char) { '\U{4e00}' <= c <= '\U{9fff}' }

  /** `str.isalnum()` */
  predicate IsAlnum(c: char) { IsLetter(c) || IsDigit(c) || IsCjk(c) }

  /** the regular-expression class `\w` */
  predicate IsWordChar(c: char) { IsAlnum(c) || c == '_' }

  function LowerChar(c: char): char {
    if IsUpper(c) then (c as int + 32) as char else c
  }

  function UpperChar(c: char): char {
    if IsLower(c) then (c as int - 32) as char else c
  }

  /** `str.lower()` */
  function Lower(s: string): (r: string)
    ensures |r| == |s|
    ensures forall i :: 0 <= i < |s| ==> r[i] == LowerChar(s[i])
  {
    seq(|s|, i requires 0 <= i < |s| => LowerChar(s[i]))
  }

  /** `str.upper()` */
  function Upper(s: string): (r: string)
    ensures |r| == |s|
    ensures forall i :: 0 <= i < |s| ==> r[i] == UpperChar(s[i])
  {
    seq(|s|, i requires 0 <= i < |s| => UpperChar(s[i]))
  }

  /** Lower-casing creates no character that is not a lower-case letter. */
  lemma LowerKeepsAbsent(s: string, c: char)
    requires !IsLower(c) && !ContainsChar(s, c)
    ensures !ContainsChar(Lower(s), c)
  {
    forall i | 0 <= i < |s| ensures Lower(s)[i] != c {
      assert s[i] != c;
    }
  }

  predicate AllSpace(s: string) {
    forall i :: 0 <= i < |s| ==> IsSpace(s[i])
  }

  predicate NoSpace(s: string) {
    forall i :: 0 <= i < |s| ==> !IsSpace(s[i])
  }

  /** `str.lstrip()` */
  function LStrip(s: string): (r: string)
    ensures |r| <= |s| && r == s[|s| - |r|..]
    ensures AllSpace(s[..|s| - |r|])
    ensures r == [] || !IsSpace(r[0])
  {
    if |s| > 0 && IsSpace(s[0]) then
      var r := LStrip(s[1..]);
      assert s[1..][|s| - 1 - |r|..] == s[|s| - |r|..];
      assert forall i :: 0 < i < |s| - |r| ==> s[i] == s[1..][..|s| - 1 - |r|][i - 1];
      r
    else s
  }

  /** `str.rstrip()` */
  function RStrip(s: string): (r: string)
    ensures |r| <= |s| && r == s[..|r|]
    ensures AllSpace(s[|r|..])
    ensures r == [] || !IsSpace(r[|r| - 1])
  {
    if |s| > 0 && IsSpace(s[|s| - 1]) then
      var r := RStrip(s[..|s| - 1]);
      assert s[..|s| - 1][..|r|] == s[..|r|];
      assert forall i :: |r| <= i < |s| - 1 ==> s[i] == s[..|s| - 1][|r|..][i - |r|];
      r
    else s
  }

  /** `str.strip()` */
  function Strip(s: string): (r: string)
    ensures |r| <= |s|
    ensures r == [] || (!IsSpace(r[0]) && !IsSpace(r[|r| - 1]))
  {
    RStrip(LStrip(s))
  }

  /** A string is blank (`not s.strip()`) exactly when every character is whitespace. */
  lemma StripEmptyIffAllSpace(s: string)
    ensures Strip(s) == [] <==> AllSpace(s)
  {
    var l := LStrip(s);
    if Strip(s) == [] {
      assert AllSpace(l[0..]);
      assert l == [];
      assert s[..|s|] == s;
    } else {
      assert Strip(s) == l[..|Strip(s)|];
      assert l[0] == s[|s| - |l|];
    }
  }

  /** `str.strip()` keeps a middle slice of its input. */
  lemma StripIsSlice(s: string)
    ensures exists a, b :: 0 <= a <= b <= |s| && Strip(s) == s[a..b]
  {
    var l := LStrip(s);
    var r := RStrip(l);
    var a := |s| - |l|;
    assert l == s[a..];
    assert r == l[..|r|];
    assert r == s[a..a + |r|];
    assert 0 <= a <= a + |r| <= |s| && Strip(s) == s[a..a + |r|];
  }

  /** Stripping twice is stripping once. */
  lemma StripIdempotent(s: string)
    ensures Strip(Strip(s)) == Strip(s)
  {
    var t := Strip(s);
    if t != [] {
      assert LStrip(t) == t;
      assert RStrip(t) == t;
    }
  }

  /** A slice holds no character its string lacks. */
  lemma SliceKeepsAbsent(s: string, a: nat, b: nat, c: char)
    requires a <= b <= |s| && !ContainsChar(s, c)
    ensures !ContainsChar(s[a..b], c)
  {
    forall i | 0 <= i < b - a ensures s[a..b][i] != c {
      assert s[a..b][i] == s[a + i];
    }
  }

  lemma StripKeepsAbsent(s: string, c: char)
    requires !ContainsChar(s, c)
    ensures !ContainsChar(Strip(s), c)
  {
    var l := LStrip(s);
    SliceKeepsAbsent(s, |s| - |l|, |s|, c);
    SliceKeepsAbsent(l, 0, |RStrip(l)|, c);
  }

  lemma StripOfStripped(s: string)
    requires s == [] || (!IsSpace(s[0]) && !IsSpace(s[|s| - 1]))
    ensures Strip(s) == s
  {
  }

  /** a non-empty string */
  type Word = w: string | |w| > 0 witness "a"

  /** `s[max(0, lo):hi]`: both bounds clamped into the string, a negative start read as 0 */
  function Slice(s: string, lo: int, hi: int): (r: string)
    ensures |r| <= |s|
  {
    var a := if lo < 0 then 0 else if lo > |s| then |s| else lo;
    var b := if hi < a then a else if hi > |s| then |s| else hi;
    s[a..b]
  }

  /** a Python index bound: a negative one counts from the end, then both are clamped */
  function PyBound(n: int, i: int): (b: nat)
    requires n >= 0
    ensures b <= n
  {
    if i < 0 then (if n + i < 0 then 0 else n + i) else if i > n then n else i
  }

  /** `s[lo:hi]` as Python evaluates it, negative bounds included */
  function PySlice(s: string, lo: int, hi: int): (r: string)
    ensures |r| <= |s|
  {
    var a := PyBound(|s|, lo);
    var b := PyBound(|s|, hi);
    if b <= a then [] else s[a..b]
  }

  function StartsWith(s: string, p: string): bool {
    |p| <= |s| && s[..|p|] == p
  }

  function EndsWith(s: string, p: string): bool {
    |p| <= |s| && s[|s| - |p|..] == p
  }

  predicate OccursAt(s: string, w: string, i: int) {
    0 <= i && i + |w| <= |s| && s[i..i + |w|] == w
  }

  /** `w in s` */
  predicate Contains(s: string, w: string) {
    exists i :: 0 <= i <= |s| - |w| && OccursAt(s, w, i)
  }

  /** A text holding `w` holds its first character. */
  lemma ContainsHead(s: string, w: string)
    requires w != [] && Contains(s, w)
    ensures Contains(s, [w[0]])
  {
    var i :| 0 <= i <= |s| - |w| && OccursAt(s, w, i);
    assert s[i] == s[i..i + |w|][0];
    assert s[i..i + 1] == [w[0]];
    assert OccursAt(s, [w[0]], i);
  }

  predicate ContainsChar(s: string, c: char) {
    exists i :: 0 <= i < |s| && s[i] == c
  }

  lemma ContainsCharConcat(a: string, b: string, c: char)
    ensures ContainsChar(a + b, c) <==> ContainsChar(a, c) || ContainsChar(b, c)
  {
    if ContainsChar(a + b, c) {
      var i :| 0 <= i < |a + b| && (a + b)[i] == c;
      if i >= |a| { assert b[i - |a|] == c; }
    }
    if ContainsChar(a, c) {
      var i :| 0 <= i < |a| && a[i] == c;
      assert (a + b)[i] == c;
    }
    if ContainsChar(b, c) {
      var i :| 0 <= i < |b| && b[i] == c;
      assert (a + b)[|a| + i] == c;
    }
  }

  /** `s.find(w, start)`: the first occurrence at or after `start`, or -1. */
  function Find(s: string, w: string, start: nat): (r: int)
    ensures r == -1 || (start <= r && OccursAt(s, w, r))
    ensures r != -1 ==> forall i :: start <= i < r ==> !OccursAt(s, w, i)
    ensures r == -1 ==> forall i :: start <= i ==> !OccursAt(s, w, i)
    decreases |s| - start
  {
    if start + |w| > |s| then -1
    else if s[start..start + |w|] == w then start
    else Find(s, w, start + 1)
  }

  /** `s.rfind(w)`: the last occurrence, or -1. */
  function RFind(s: string, w: string): (r: int)
    ensures r == -1 || OccursAt(s, w, r)
    ensures forall i :: r < i ==> !OccursAt(s, w, i)
  {
    RFindBelow(s, w, |s| - |w|)
  }

  /** the last occurrence starting at or before `hi` */
  function RFindBelow(s: string, w: string, hi: int): (r: int)
    requires hi <= |s| - |w|
    ensures r == -1 || (OccursAt(s, w, r) && r <= hi)
    ensures forall i :: r < i <= hi ==> !OccursAt(s, w, i)
    ensures r >= -1
    decreases hi + 1
  {
    if hi < 0 then -1
    else if s[hi..hi + |w|] == w then hi
    else RFindBelow(s, w, hi - 1)
  }

  /** `s.replace(pat, rep)`: non-overlapping occurrences, left to right. */
  function ReplaceAll(s: string, pat: string, rep: string): (r: string)
    requires |pat| > 0
    decreases |s|
  {
    if |s| < |pat| then s
    else if s[..|pat|] == pat then rep + ReplaceAll(s[|pat|..], pat, rep)
    else [s[0]] + ReplaceAll(s[1..], pat, rep)
  }

  /** `s.count(pat)`: the occurrences `ReplaceAll` replaces. */
  function CountOcc(s: string, pat: string): (n: nat)
    requires |pat| > 0
    decreases |s|
  {
    if |s| < |pat| then 0
    else if s[..|pat|] == pat then 1 + CountOcc(s[|pat|..], pat)
    else CountOcc(s[1..], pat)
  }

  /** Each replacement changes the length by |rep| - |pat|. */
  lemma {:induction false} ReplaceAllLength(s: string, pat: string, rep: string)
    requires |pat| > 0
    ensures |ReplaceAll(s, pat, rep)| == |s| + CountOcc(s, pat) * (|rep| - |pat|)
    decreases |s|
  {
    if |s| < |pat| {
    } else if s[..|pat|] == pat {
      var t := s[|pat|..];
      ReplaceAllLength(t, pat, rep);
      var k := CountOcc(t, pat);
      var d := |rep| - |pat|;
      assert ReplaceAll(s, pat, rep) == rep + ReplaceAll(t, pat, rep);
      assert CountOcc(s, pat) == 1 + k;
      assert |t| == |s| - |pat|;
      assert (1 + k) * d == d + k * d;
    } else {
      ReplaceAllLength(s[1..], pat, rep);
      assert ReplaceAll(s, pat, rep) == [s[0]] + ReplaceAll(s[1..], pat, rep);
      assert CountOcc(s, pat) == CountOcc(s[1..], pat);
    }
  }

  /** After replacing a single character by a string without it, the character is gone. */
  lemma {:induction false} ReplaceCharRemoves(s: string, c: char, rep: string)
    requires !ContainsChar(rep, c)
    ensures !ContainsChar(ReplaceAll(s, [c], rep), c)
    decreases |s|
  {
    if |s| < 1 {
    } else if s[..1] == [c] {
      ReplaceCharRemoves(s[1..], c, rep);
      var t := ReplaceAll(s[1..], [c], rep);
      assert ReplaceAll(s, [c], rep) == rep + t;
      forall i | 0 <= i < |rep + t| ensures (rep + t)[i] != c {
        if i < |rep| { assert (rep + t)[i] == rep[i]; } else { assert (rep + t)[i] == t[i - |rep|]; }
      }
    } else {
      ReplaceCharRemoves(s[1..], c, rep);
      var t := ReplaceAll(s[1..], [c], rep);
      assert ReplaceAll(s, [c], rep) == [s[0]] + t;
      assert s[0] != c;
      forall i | 0 <= i < |[s[0]] + t| ensures ([s[0]] + t)[i] != c {
        if i > 0 { assert ([s[0]] + t)[i] == t[i - 1]; }
      }
    }
  }

  /** Replacing never creates a character that neither the input nor `rep` holds. */
  lemma {:induction false} ReplaceAllKeepsAbsent(s: string, pat: string, rep: string, c: char)
    requires |pat| > 0
    requires !ContainsChar(s, c) && !ContainsChar(rep, c)
    ensures !ContainsChar(ReplaceAll(s, pat, rep), c)
    decreases |s|
  {
    if |s| < |pat| {
    } else if s[..|pat|] == pat {
      assert !ContainsChar(s[|pat|..], c) by {
        forall i | 0 <= i < |s[|pat|..]| ensures s[|pat|..][i] != c { assert s[|pat|..][i] == s[i + |pat|]; }
      }
      ReplaceAllKeepsAbsent(s[|pat|..], pat, rep, c);
      var t := ReplaceAll(s[|pat|..], pat, rep);
      forall i | 0 <= i < |rep + t| ensures (rep + t)[i] != c {
        if i < |rep| { assert (rep + t)[i] == rep[i]; } else { assert (rep + t)[i] == t[i - |rep|]; }
      }
    } else {
      assert !ContainsChar(s[1..], c) by {
        forall i | 0 <= i < |s[1..]| ensures s[1..][i] != c { assert s[1..][i] == s[i + 1]; }
      }
      ReplaceAllKeepsAbsent(s[1..], pat, rep, c);
      var t := ReplaceAll(s[1..], pat, rep);
      assert s[0] != c;
      forall i | 0 <= i < |[s[0]] + t| ensures ([s[0]] + t)[i] != c {
        if i > 0 { assert ([s[0]] + t)[i] == t[i - 1]; }
      }
    }
  }

  /** Replacing a pattern that does not occur changes nothing. */
  lemma {:induction false} ReplaceAllAbsent(s: string, pat: string, rep: string)
    requires |pat| > 0 && !Contains(s, pat)
    ensures ReplaceAll(s, pat, rep) == s
    decreases |s|
  {
    if |s| >= |pat| {
      assert !OccursAt(s, pat, 0);
      assert !Contains(s[1..], pat) by {
        if Contains(s[1..], pat) {
          var i :| 0 <= i <= |s[1..]| - |pat| && OccursAt(s[1..], pat, i);
          assert s[i + 1..i + 1 + |pat|] == s[1..][i..i + |pat|];
          assert OccursAt(s, pat, i + 1);
        }
      }
      ReplaceAllAbsent(s[1..], pat, rep);
    }
  }

  /** `sep.join(parts)` */
  function Join(parts: seq<string>, sep: string): string {
    if |parts| == 0 then ""
    else if |parts| == 1 then parts[0]
    else parts[0] + sep + Join(parts[1..], sep)
  }

  /** Joining two non-empty lists puts one separator between their joins. */
  lemma {:induction false} JoinAppend(a: seq<string>, b: seq<string>, sep: string)
    requires a != [] && b != []
    ensures Join(a + b, sep) == Join(a, sep) + sep + Join(b, sep)
    decreases |a|
  {
    assert (a + b)[1..] == a[1..] + b;
    if |a| > 1 {
      JoinAppend(a[1..], b, sep);
    }
  }

  /** `"".join(parts)` */
  function Concat(parts: seq<string>): string {
    if |parts| == 0 then "" else parts[0] + Concat(parts[1..])
  }

  lemma {:induction false} ConcatAppend(a: seq<string>, b: seq<string>)
    ensures Concat(a + b) == Concat(a) + Concat(b)
  {
    if |a| == 0 {
      assert a + b == b;
    } else {
      assert (a + b)[1..] == a[1..] + b;
      ConcatAppend(a[1..], b);
    }
  }

  lemma ConcatPair(a: string, b: string)
    ensures Concat([a, b]) == a + b
  {
    assert [a, b][1..] == [b];
    assert [b][1..] == [];
    assert Concat([b]) == b + Concat([]);
    assert b + [] == b;
  }

  /** `s.split(sep)` for one separator character. */
  function SplitOn(s: string, sep: char): (r: seq<string>)
    ensures |r| >= 1
    ensures forall k :: 0 <= k < |r| ==> !ContainsChar(r[k], sep)
    decreases |s|
  {
    if |s| == 0 then [""]
    else
      var rest := SplitOn(s[1..], sep);
      if s[0] == sep then [""] + rest
      else [[s[0]] + rest[0]] + rest[1..]
  }

  /** Splitting on a character and joining with it gives the input back. */
  lemma {:induction false} JoinSplitOn(s: string, sep: char)
    ensures Join(SplitOn(s, sep), [sep]) == s
    decreases |s|
  {
    if |s| > 0 {
      var rest := SplitOn(s[1..], sep);
      JoinSplitOn(s[1..], sep);
      if s[0] == sep {
        assert SplitOn(s, sep) == [""] + rest;
        assert ([""] + rest)[1..] == rest;
      } else {
        JoinHead(s[0], rest, [sep]);
      }
    }
  }

  lemma JoinHead(c: char, parts: seq<string>, sep: string)
    requires |parts| >= 1
    ensures Join([[c] + parts[0]] + parts[1..], sep) == [c] + Join(parts, sep)
  {
    var ps := [[c] + parts[0]] + parts[1..];
    if |parts| > 1 {
      assert ps[1..] == parts[1..];
    }
  }

  /** A join creates no character that neither the parts nor the separator hold. */
  lemma {:induction false} JoinKeepsAbsent(parts: seq<string>, sep: string, c: char)
    requires forall k :: 0 <= k < |parts| ==> !ContainsChar(parts[k], c)
    requires !ContainsChar(sep, c)
    ensures !ContainsChar(Join(parts, sep), c)
    decreases |parts|
  {
    if |parts| > 1 {
      JoinKeepsAbsent(parts[1..], sep, c);
      ContainsCharConcat(parts[0], sep, c);
      ContainsCharConcat(parts[0] + sep, Join(parts[1..], sep), c);
    }
  }

  /** A string without the separator splits into itself alone. */
  lemma {:induction false} SplitOnPlain(w: string, sep: char)
    requires !ContainsChar(w, sep)
    ensures SplitOn(w, sep) == [w]
    decreases |w|
  {
    if w != [] {
      assert !ContainsChar(w[1..], sep) by {
        ContainsCharConcat([w[0]], w[1..], sep);
        assert w == [w[0]] + w[1..];
      }
      SplitOnPlain(w[1..], sep);
      assert w[0] != sep by {
        assert w[0] == w[0];
      }
      var rest := SplitOn(w[1..], sep);
      assert SplitOn(w, sep) == [[w[0]] + rest[0]] + rest[1..];
      assert [w[0]] + w[1..] == w;
    }
  }

  /** A separator-free head and a separator split off as the first part. */
  lemma {:induction false} SplitOnCons(w: string, z: string, sep: char)
    requires !ContainsChar(w, sep)
    ensures SplitOn(w + [sep] + z, sep) == [w] + SplitOn(z, sep)
    decreases |w|
  {
    if w == [] {
      assert w + [sep] + z == [sep] + z;
      assert ([sep] + z)[1..] == z;
    } else {
      assert !ContainsChar(w[1..], sep) by {
        ContainsCharConcat([w[0]], w[1..], sep);
        assert w == [w[0]] + w[1..];
      }
      SplitOnCons(w[1..], z, sep);
      assert (w + [sep] + z)[1..] == w[1..] + [sep] + z;
      assert [w[0]] + w[1..] == w;
    }
  }

  /** Splitting a join of separator-free parts gives the parts back. */
  lemma {:induction false} SplitOnJoin(parts: seq<string>, sep: char)
    requires |parts| >= 1
    requires forall k :: 0 <= k < |parts| ==> !ContainsChar(parts[k], sep)
    ensures SplitOn(Join(parts, [sep]), sep) == parts
    decreases |parts|
  {
    if |parts| == 1 {
      SplitOnPlain(parts[0], sep);
    } else {
      SplitOnJoin(parts[1..], sep);
      SplitOnCons(parts[0], Join(parts[1..], [sep]), sep);
      assert [parts[0]] + parts[1..] == parts;
    }
  }

  /** `s.split()`: the maximal runs of non-whitespace characters, in order. */
  function SplitWs(s: string): (r: seq<string>)
    ensures forall k :: 0 <= k < |r| ==> r[k] != [] && NoSpace(r[k])
  {
    if s == [] then []
    else if IsSpace(s[0]) then SplitWs(s[1..])
    else
      var n := WordLen(s);
      [s[..n]] + SplitWs(s[n..])
  }

  /** the length of the leading run of non-whitespace characters */
  function WordLen(t: string): (n: nat)
    ensures n <= |t| && NoSpace(t[..n])
    ensures n < |t| ==> IsSpace(t[n])
    ensures t != [] && !IsSpace(t[0]) ==> n > 0
  {
    if |t| == 0 || IsSpace(t[0]) then 0 else 1 + WordLen(t[1..])
  }

  /** one line, stripped, or nothing when it is blank */
  function KeptLine(line: string): seq<string> {
    if Strip(line) != [] then [Strip(line)] else []
  }

  /** the stripped, non-blank lines (`[l.strip() for l in lines if l.strip()]`) */
  function Kept(lines: seq<string>): seq<string> {
    if lines == [] then [] else Kept(lines[..|lines| - 1]) + KeptLine(lines[|lines| - 1])
  }

  lemma KeptSnoc(lines: seq<string>, l: string)
    ensures Kept(lines + [l]) == Kept(lines) + KeptLine(l)
  {
    assert (lines + [l])[..|lines|] == lines;
  }

  /** Every kept line is non-blank and already stripped. */
  lemma {:induction false} KeptStripped(lines: seq<string>)
    ensures forall l :: l in Kept(lines) ==> l != [] && Strip(l) == l
  {
    if lines != [] {
      KeptStripped(lines[..|lines| - 1]);
      StripIdempotent(lines[|lines| - 1]);
    }
  }

}
