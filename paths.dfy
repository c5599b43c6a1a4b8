/**
 * Paths as `os.path` and `pathlib` treat them, shared by the transcript
 * converter and the configuration loader. Paths are strings in the normal
 * form `pathlib` prints them: no trailing `/` except for the root, no `//`,
 * no `.` components.
 */
module Paths {
  import opened PyText

  /** the index of the last `c` in `s`, or -1: `s.rfind(c)` for one character */
  function LastIndex(s: string, c: char): (r: int)
    ensures -1 <= r < |s| && (r >= 0 ==> s[r] == c)
    ensures forall k :: r < k < |s| ==> s[k] != c
    decreases |s|
  {
    if s == [] then -1 else if s[|s| - 1] == c then |s| - 1 else LastIndex(s[..|s| - 1], c)
  }

  /** Text without `c` after a `c` leaves that `c` the last one. */
  lemma LastIndexAfter(x: string, n: string, c: char)
    requires x != [] && x[|x| - 1] == c && !ContainsChar(n, c)
    ensures LastIndex(x + n, c) == |x| - 1
  {
    var r := LastIndex(x + n, c);
    assert (x + n)[|x| - 1] == c;
  }

  /** In text without `c`, there is no last `c`. */
  lemma LastIndexNone(n: string, c: char)
    requires !ContainsChar(n, c)
    ensures LastIndex(n, c) == -1
  {
  }

  /** `Path(p).parent` */
  function Parent(p: string): string {
    var i := LastIndex(p, '/');
    if i < 0 then "." else if i == 0 then "/" else p[..i]
  }

  /** `os.path.basename(p)`: what follows the last `/` */
  function Basename(p: string): (r: string)
    ensures !ContainsChar(r, '/')
  {
    p[LastIndex(p, '/') + 1..]
  }

  /** `directory / name` for a name without `/`; `Path("")` and `Path(".")` add nothing */
  function PathJoin(d: string, n: string): string {
    if d == "" || d == "." then n else if EndsWith(d, "/") then d + n else d + "/" + n
  }

  predicate AllDots(s: string) {
    forall k :: 0 <= k < |s| ==> s[k] == '.'
  }

  /**
   * `os.path.splitext(name)[0]` for a name without `/`: the name up to its
   * last `.`, unless only dots come before that `.` (a hidden file such as
   * `.profile` has no extension).
   */
  function Stem(name: string): (r: string)
    ensures |r| <= |name| && r == name[..|r|]
  {
    var i := LastIndex(name, '.');
    if i > 0 && !AllDots(name[..i]) then name[..i] else name
  }

  /** Removing an extension without dots gives back what it was appended to. */
  lemma StemDropsExtension(b: string, ext: string)
    requires !AllDots(b) && !ContainsChar(ext, '.')
    ensures Stem(b + "." + ext) == b
  {
    LastIndexAfter(b + ".", ext, '.');
    assert (b + "." + ext)[..|b|] == b;
  }

  /** A stem keeps a character that is not a dot when the name has one. */
  lemma StemNotAllDots(name: string)
    requires !AllDots(name)
    ensures !AllDots(Stem(name))
  {
  }

  /** The joined path ends in the name, after a `/` or from the start. */
  lemma BasenameOfJoin(d: string, n: string)
    requires !ContainsChar(n, '/')
    ensures Basename(PathJoin(d, n)) == n
  {
    if d == "" || d == "." {
      LastIndexNone(n, '/');
    } else {
      var x := if EndsWith(d, "/") then d else d + "/";
      assert x[|x| - 1] == '/' by {
        if EndsWith(d, "/") {
          assert d[|d| - 1..] == "/";
        }
      }
      assert PathJoin(d, n) == x + n;
      LastIndexAfter(x, n, '/');
      assert (x + n)[|x|..] == n;
    }
  }

  /** A name joined to a normal directory lies in that directory. */
  lemma ParentOfJoin(d: string, n: string)
    requires d != "" && (d == "/" || !EndsWith(d, "/"))
    requires n != "" && !ContainsChar(n, '/')
    ensures Parent(PathJoin(d, n)) == d
  {
    if d == "." {
      LastIndexNone(n, '/');
    } else if d == "/" {
      assert EndsWith(d, "/");
      LastIndexAfter(d, n, '/');
    } else {
      var x := d + "/";
      assert PathJoin(d, n) == x + n;
      LastIndexAfter(x, n, '/');
      assert (x + n)[..|d|] == d;
    }
  }


  /** `os.path.splitext(os.path.basename(p))[0]`: the file name without its directory and last extension */
  function FileStem(p: string): string {
    Stem(Basename(p))
  }

  /** The base name holds no `/` and, when the file name is not all dots, a character other than a dot. */
  lemma StemOfBasename(input: string)
    requires !AllDots(Basename(input))
    ensures !AllDots(FileStem(input)) && !ContainsChar(FileStem(input), '/')
  {
    var name := Basename(input);
    var base := FileStem(input);
    StemNotAllDots(name);
    forall k | 0 <= k < |base| ensures base[k] != '/' {
      assert base[k] == name[k];
    }
  }
  /** A file name in a directory loses the directory and its last extension. */
  lemma StemOfPath(dir: string, name: string, ext: string)
    requires !ContainsChar(name, '/') && !ContainsChar(ext, '/') && !ContainsChar(ext, '.')
    requires !AllDots(name)
    ensures FileStem(dir + "/" + name + "." + ext) == name
  {
    var b := name + "." + ext;
    ContainsCharConcat(name, ".", '/');
    ContainsCharConcat(name + ".", ext, '/');
    LastIndexAfter(dir + "/", b, '/');
    assert dir + "/" + name + "." + ext == (dir + "/") + b;
    assert ((dir + "/") + b)[|dir| + 1..] == b;
    StemDropsExtension(name, ext);
  }

  /** A name without '/' or '.' is its own stem. */
  lemma PlainNameIsStem(name: string)
    requires !ContainsChar(name, '/') && !ContainsChar(name, '.')
    ensures FileStem(name) == name
  {
    LastIndexNone(name, '/');
    LastIndexNone(name, '.');
  }
}
