/**
 * Candidate cut points and the generic machinery both sentence splitters use:
 * collecting the hits of a per-position test, visiting the successive
 * occurrences of a word as a `find` loop does, Python's stable sort by
 * position, filtering, and the choice of the best candidate.
 */
module Candidates {
  import opened PyText

  /** A cut position in the sentence with its priority; the reason text that goes with it is not modelled. */
  datatype Candidate = Candidate(pos: int, priority: int)

  /** the candidates of a per-position test at the positions below `i`, by position */
  function Collect(hit: nat -> seq<Candidate>, i: nat): seq<Candidate> {
    if i == 0 then [] else Collect(hit, i - 1) + hit(i - 1)
  }

  /** the positions the `find` loop visits: successive non-overlapping occurrences of `c` from `start` on */
  function Occurrences(lower: string, c: string, start: nat): (ps: seq<nat>)
    requires |c| > 0
    ensures forall i :: 0 <= i < |ps| ==> start <= ps[i] && OccursAt(lower, c, ps[i])
    decreases |lower| + 1 - start
  {
    var p := Find(lower, c, start);
    if p == -1 then [] else [p] + Occurrences(lower, c, p + |c|)
  }

  /** the candidates found at each of the positions, for a per-position test `hit` */
  function Hits(hit: nat -> seq<Candidate>, ps: seq<nat>): seq<Candidate> {
    if ps == [] then [] else hit(ps[0]) + Hits(hit, ps[1..])
  }

  predicate SortedByPos(cs: seq<Candidate>) {
    forall i, j :: 0 <= i < j < |cs| ==> cs[i].pos <= cs[j].pos
  }

  /** insert before the first element at the same or a later position (keeps the sort stable) */
  function InsertByPos(x: Candidate, cs: seq<Candidate>): seq<Candidate> {
    if cs == [] || x.pos <= cs[0].pos then [x] + cs
    else [cs[0]] + InsertByPos(x, cs[1..])
  }

  /** `list.sort(key=lambda x: x[0])`: a stable insertion sort by position */
  function SortByPos(cs: seq<Candidate>): seq<Candidate> {
    if cs == [] then [] else InsertByPos(cs[0], SortByPos(cs[1..]))
  }

  lemma {:induction false} InsertByPosSpec(x: Candidate, cs: seq<Candidate>)
    requires SortedByPos(cs)
    ensures SortedByPos(InsertByPos(x, cs)) && multiset(InsertByPos(x, cs)) == multiset(cs) + multiset{x}
  {
    if !(cs == [] || x.pos <= cs[0].pos) {
      var rest := InsertByPos(x, cs[1..]);
      InsertByPosSpec(x, cs[1..]);
      assert cs == [cs[0]] + cs[1..];
      assert forall y :: y in cs[1..] ==> cs[0].pos <= y.pos;
      ConsSorted(cs[0], rest, x, cs[1..]);
    }
  }

  lemma ConsSorted(h: Candidate, rest: seq<Candidate>, x: Candidate, tail: seq<Candidate>)
    requires SortedByPos(rest) && multiset(rest) == multiset(tail) + multiset{x}
    requires h.pos < x.pos && forall y :: y in tail ==> h.pos <= y.pos
    ensures SortedByPos([h] + rest)
  {
    forall j | 0 <= j < |rest| ensures h.pos <= rest[j].pos {
      assert rest[j] in multiset(rest);
    }
  }

  /** The sort orders the candidates by position and keeps each of them exactly once. */
  lemma {:induction false} SortByPosSpec(cs: seq<Candidate>)
    ensures SortedByPos(SortByPos(cs)) && multiset(SortByPos(cs)) == multiset(cs)
  {
    if cs != [] {
      SortByPosSpec(cs[1..]);
      InsertByPosSpec(cs[0], SortByPos(cs[1..]));
      assert cs == [cs[0]] + cs[1..];
    }
  }

  predicate InRange(s: string, cs: seq<Candidate>) {
    forall i :: 0 <= i < |cs| ==> 0 <= cs[i].pos < |s|
  }

  /** the candidates that `keep` keeps, in order */
  function Filter(keep: Candidate -> bool, cs: seq<Candidate>): seq<Candidate> {
    if cs == [] then []
    else
      var last := cs[|cs| - 1];
      Filter(keep, cs[..|cs| - 1]) + (if keep(last) then [last] else [])
  }

  /** `Filter` keeps exactly the members that `keep` accepts. */
  lemma {:induction false} FilterMembers(keep: Candidate -> bool, cs: seq<Candidate>)
    ensures forall c :: c in Filter(keep, cs) <==> c in cs && keep(c)
  {
    if cs != [] {
      FilterMembers(keep, cs[..|cs| - 1]);
      assert cs == cs[..|cs| - 1] + [cs[|cs| - 1]];
    }
  }

  /** The order `max(..., key=lambda x: (x[1], -x[0]))` uses: higher priority, then smaller position. */
  predicate Beats(a: Candidate, b: Candidate) {
    a.priority > b.priority || (a.priority == b.priority && a.pos < b.pos)
  }

  /** `max(cs, key=(priority, -pos))`, the first maximal element */
  function Best(cs: seq<Candidate>): (b: Candidate)
    requires cs != []
    ensures b in cs
    ensures forall c :: c in cs ==> !Beats(c, b)
    decreases |cs|
  {
    if |cs| == 1 then cs[0]
    else
      var b0 := Best(cs[..|cs| - 1]);
      assert cs == cs[..|cs| - 1] + [cs[|cs| - 1]];
      if Beats(cs[|cs| - 1], b0) then cs[|cs| - 1] else b0
  }

  /** Whatever `Collect` gathers comes from a position below `i`. */
  lemma {:induction false} CollectFrom(hit: nat -> seq<Candidate>, i: nat, x: Candidate)
    requires x in Collect(hit, i)
    ensures exists j :: 0 <= j < i && x in hit(j)
  {
    if x !in hit(i - 1) {
      CollectFrom(hit, i - 1, x);
    }
  }

  /** `Collect` gathers everything found at a position below `i`. */
  lemma {:induction false} CollectHas(hit: nat -> seq<Candidate>, j: nat, i: nat)
    requires j < i
    ensures forall x :: x in hit(j) ==> x in Collect(hit, i)
  {
    if j < i - 1 {
      CollectHas(hit, j, i - 1);
    }
  }

  /** two to the power `n`, never below one: the bound on how many pieces a split can give */
  function Pow2(n: nat): (r: nat)
    ensures r >= 1
  {
    if n == 0 then 1 else 2 * Pow2(n - 1)
  }

  /** the position loop of `find_split_points`: the hits at each position below `n`, in order */
  method ScanPositions(hit: nat -> seq<Candidate>, n: nat) returns (points: seq<Candidate>)
    ensures points == Collect(hit, n)
  {
    points := [];
    var i := 0;
    while i < n
      invariant 0 <= i <= n
      invariant points == Collect(hit, i)
    {
      points := points + hit(i);
      i := i + 1;
    }
  }

  /** One turn of the `find` loop: the occurrence found, then the rest. */
  lemma HitsStep(hit: nat -> seq<Candidate>, lower: string, c: string, pos: nat)
    requires |c| > 0 && Find(lower, c, pos) != -1
    ensures var p := Find(lower, c, pos);
      pos <= p && p + |c| <= |lower|
      && Hits(hit, Occurrences(lower, c, pos)) == hit(p) + Hits(hit, Occurrences(lower, c, p + |c|))
  {
    var p := Find(lower, c, pos);
    var rest := Occurrences(lower, c, p + |c|);
    assert Occurrences(lower, c, pos) == [p] + rest;
    assert ([p] + rest)[1..] == rest;
  }

  /** the `find` loop of `find_split_points`: visit each non-overlapping occurrence of `c` and collect its hits */
  method ScanOccurrences(hit: nat -> seq<Candidate>, lower: string, c: string) returns (points: seq<Candidate>)
    requires |c| > 0
    ensures points == Hits(hit, Occurrences(lower, c, 0))
  {
    points := [];
    var pos := 0;
    ghost var rest := Occurrences(lower, c, 0);
    while true
      invariant 0 <= pos <= |lower|
      invariant rest == Occurrences(lower, c, pos)
      invariant points + Hits(hit, rest) == Hits(hit, Occurrences(lower, c, 0))
      decreases |lower| - pos
    {
      var p := Find(lower, c, pos);
      if p == -1 {
        break;
      }
      HitsStep(hit, lower, c, pos);
      points := points + hit(p);
      pos := p + |c|;
      rest := Occurrences(lower, c, pos);
    }
  }
}
