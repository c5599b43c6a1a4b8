/**
 * Two facts about sequences, stated once for any element type so that
 * proofs about sequences of strings need not compare strings.
 */
module Seqs {
  lemma AppendAssoc<T>(a: seq<T>, b: seq<T>, c: seq<T>)
    ensures a + b + c == a + (b + c)
  {
  }

  lemma SplitLast<T>(s: seq<T>)
    requires s != []
    ensures s == s[..|s| - 1] + [s[|s| - 1]]
  {
  }

  lemma ConsTail<T>(s: seq<T>)
    requires s != []
    ensures s == [s[0]] + s[1..]
  {
  }

  /** Cutting out element `j` of the tail, then putting the head back, cuts out element `j + 1`. */
  lemma ConsCut<T>(s: seq<T>, j: nat)
    requires j + 1 < |s|
    ensures [s[0]] + (s[1..][..j] + s[1..][j + 1..]) == s[..j + 1] + s[j + 2..]
  {
    assert s[1..][..j] == s[1..j + 1];
    assert s[1..][j + 1..] == s[j + 2..];
    assert [s[0]] + s[1..j + 1] == s[..j + 1];
  }

  /** A sequence that agrees with `a` and then holds `y` is `a + [y]`. */
  lemma PointwiseSnoc<T>(r: seq<T>, a: seq<T>, y: T)
    requires |r| == |a| + 1 && r[|a|] == y
    requires forall i :: 0 <= i < |a| ==> r[i] == a[i]
    ensures r == a + [y]
  {
  }

  /** A sequence that agrees with `a` and then with `b` is `a + b`. */
  lemma PointwiseAppend<T>(r: seq<T>, a: seq<T>, b: seq<T>)
    requires |r| == |a| + |b|
    requires forall i :: 0 <= i < |a| ==> r[i] == a[i]
    requires forall j :: 0 <= j < |b| ==> r[|a| + j] == b[j]
    ensures r == a + b
  {
    forall i | |a| <= i < |r| ensures r[i] == (a + b)[i] {
      assert r[|a| + (i - |a|)] == b[i - |a|];
    }
  }

  /** Appending an element leaves the earlier ones where they were. */
  lemma SnocKeeps<T>(a: seq<T>, y: T)
    ensures forall i :: 0 <= i < |a| ==> (a + [y])[i] == a[i]
  {
  }

  lemma LastOfAppend<T>(a: seq<T>, b: seq<T>)
    requires b != []
    ensures (a + b)[|a + b| - 1] == b[|b| - 1]
  {
  }
}
