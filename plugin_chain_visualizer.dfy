/**
 * The layout helpers of the plugin chain canvas: the display name of a
 * plugin without its namespace, how many nodes fit on one row, how many
 * rows the chain then takes, and the per-plugin status tables the canvas
 * keeps. Painting itself is not modelled.
 */
module ChainVisualizer {
  import opened Values
  import opened PyText
  import Seqs

  // ------------------------------------------------------------------
  // names

  /** The last part of a split is a suffix; it is the whole string when the separator is absent, and follows a separator otherwise. */
  lemma {:induction false} LastPart(s: string, c: char)
    ensures var parts := SplitOn(s, c);
      var last := parts[|parts| - 1];
      && |last| <= |s| && last == s[|s| - |last|..]
      && (ContainsChar(s, c) <==> |parts| >= 2)
      && (!ContainsChar(s, c) ==> last == s)
      && (ContainsChar(s, c) ==> |last| < |s| && s[|s| - |last| - 1] == c)
    decreases |s|
  {
    if |s| > 0 {
      var rest := SplitOn(s[1..], c);
      var tail := rest[|rest| - 1];
      LastPart(s[1..], c);
      HeadContains(s, c);
      LastPartStep(s, c);
      if s[0] == c || |rest| >= 2 {
        assert s[1..][|s| - 1 - |tail|..] == s[|s| - |tail|..];
      }
    }
  }

  /** Whether a non-empty string holds `c`: at its head, or in its tail. */
  lemma HeadContains(s: string, c: char)
    requires |s| > 0
    ensures ContainsChar(s, c) <==> s[0] == c || ContainsChar(s[1..], c)
  {
    ContainsCharConcat([s[0]], s[1..], c);
    assert s == [s[0]] + s[1..];
    assert ContainsChar([s[0]], c) <==> s[0] == c by {
      if s[0] == c { assert [s[0]][0] == c; }
    }
  }

  /** One step of the split: the parts and the last part, from those of the tail. */
  lemma LastPartStep(s: string, c: char)
    requires |s| > 0
    ensures var rest := SplitOn(s[1..], c);
      var parts := SplitOn(s, c);
      && |parts| == (if s[0] == c then |rest| + 1 else |rest|)
      && parts[|parts| - 1] == (if s[0] == c || |rest| >= 2 then rest[|rest| - 1] else [s[0]] + rest[0])
  {
    var rest := SplitOn(s[1..], c);
    if s[0] == c {
      assert SplitOn(s, c) == [""] + rest;
      Seqs.LastOfAppend([""], rest);
    } else {
      assert SplitOn(s, c) == [[s[0]] + rest[0]] + rest[1..];
      if |rest| >= 2 {
        Seqs.LastOfAppend([[s[0]] + rest[0]], rest[1..]);
      }
    }
  }

  /** A suffix of a string without `c` has no `c` either. */
  lemma SuffixKeepsAbsent(s: string, k: nat, c: char)
    requires k <= |s| && !ContainsChar(s, c)
    ensures !ContainsChar(s[k..], c)
  {
    forall i | 0 <= i < |s| - k ensures s[k..][i] != c {
      assert s[k..][i] == s[k + i];
    }
  }

  /** The part of `s` after its last `c`, as `s.split(c)[-1]`. */
  function AfterLast(s: string, c: char): (r: string)
    ensures |r| <= |s| && r == s[|s| - |r|..] && !ContainsChar(r, c)
    ensures !ContainsChar(s, c) ==> r == s
    ensures ContainsChar(s, c) ==> |r| < |s| && s[|s| - |r| - 1] == c
  {
    var parts := SplitOn(s, c);
    LastPart(s, c);
    parts[|parts| - 1]
  }

  /**
   * `_remove_namespace`: the part after the last '/' if there is one, else
   * the part after the last '.', else the name itself.
   */
  function RemoveNamespace(name: string): (r: string)
    ensures |r| <= |name| && r == name[|name| - |r|..]
    ensures !ContainsChar(r, '/')
    ensures ContainsChar(name, '/') ==> |r| < |name| && name[|name| - |r| - 1] == '/'
    ensures !ContainsChar(name, '/') && ContainsChar(name, '.') ==>
      |r| < |name| && name[|name| - |r| - 1] == '.' && !ContainsChar(r, '.')
    ensures !ContainsChar(name, '/') && !ContainsChar(name, '.') ==> r == name
  {
    if ContainsChar(name, '/') then AfterLast(name, '/')
    else if ContainsChar(name, '.') then
      var r := AfterLast(name, '.');
      SuffixKeepsAbsent(name, |name| - |r|, '/');
      r
    else name
  }

  /** Two separator-free suffixes that both follow a separator are the same. */
  lemma AfterSeparatorUnique(s: string, c: char, a: string, b: string)
    requires |a| < |s| && a == s[|s| - |a|..] && s[|s| - |a| - 1] == c && !ContainsChar(a, c)
    requires |b| < |s| && b == s[|s| - |b|..] && s[|s| - |b| - 1] == c && !ContainsChar(b, c)
    ensures a == b
  {
    if |a| < |b| {
      assert false;
    } else if |b| < |a| {
      assert false;
    }
  }

  /** A qualified name `namespace/name` shows as `name`. */
  lemma SlashQualified(ns: string, n: string)
    requires !ContainsChar(n, '/')
    ensures RemoveNamespace(ns + "/" + n) == n
  {
    var s := ns + "/" + n;
    assert s[|ns|] == '/';
    assert s[|s| - |n|..] == n;
    AfterSeparatorUnique(s, '/', RemoveNamespace(s), n);
  }

  /** A dotted name without slashes shows as its last component. */
  lemma DotQualified(ns: string, n: string)
    requires !ContainsChar(ns, '/') && !ContainsChar(n, '/') && !ContainsChar(n, '.')
    ensures RemoveNamespace(ns + "." + n) == n
  {
    var s := ns + "." + n;
    assert s[|ns|] == '.';
    assert s[|s| - |n|..] == n;
    assert !ContainsChar(s, '/') by {
      ContainsCharConcat(ns, ".", '/');
      ContainsCharConcat(ns + ".", n, '/');
      assert !ContainsChar(".", '/') by { assert "."[0] == '.'; }
    }
    AfterSeparatorUnique(s, '.', RemoveNamespace(s), n);
  }

  // ------------------------------------------------------------------
  // rows

  function Sum(ws: seq<int>): int {
    if ws == [] then 0 else Sum(ws[..|ws| - 1]) + ws[|ws| - 1]
  }

  lemma SumSnoc(ws: seq<int>, i: nat)
    requires i < |ws|
    ensures Sum(ws[..i + 1]) == Sum(ws[..i]) + ws[i]
  {
    assert ws[..i + 1][..i] == ws[..i];
  }

  /** The width of a row of nodes: the nodes plus one gap between each neighbouring pair. */
  function Span(ws: seq<int>, gap: int): int {
    if ws == [] then 0 else Sum(ws) + (|ws| - 1) * gap
  }

  /** The first `k` nodes, with a spacing and an arrow between neighbours, fit in the available width. */
  predicate Fits(ws: seq<int>, k: nat, available: int, spacing: int, arrowWidth: int)
    requires k <= |ws|
  {
    Span(ws[..k], spacing + arrowWidth) <= available
  }

  /** `k` is the smallest row length that no longer fits. */
  predicate FirstTooWide(ws: seq<int>, k: int, available: int, spacing: int, arrowWidth: int) {
    && 1 <= k <= |ws|
    && !Fits(ws, k, available, spacing, arrowWidth)
    && forall j :: 1 <= j < k ==> Fits(ws, j, available, spacing, arrowWidth)
  }

  function Min(a: int, b: int): int { if a < b then a else b }
  function Max(a: int, b: int): int { if a < b then b else a }

  /** The width the inner loop adds up for a row of the first `m` nodes. */
  method RowWidth(widths: seq<int>, m: nat, spacing: int, arrowWidth: int) returns (total: int)
    requires m <= |widths|
    ensures total == Span(widths[..m], spacing + arrowWidth)
  {
    total := 0;
    for i := 0 to m
      invariant total == Sum(widths[..i]) + (if i == m && m > 0 then m - 1 else i) * (spacing + arrowWidth)
    {
      SumSnoc(widths, i);
      total := total + widths[i];
      if i < m - 1 {
        total := total + spacing + arrowWidth;
      }
    }
  }

  /**
   * `_calculate_nodes_per_row`: one less than the first row length that
   * overflows (at least one), or every node when none overflows.
   */
  method NodesPerRow(widths: seq<int>, available: int, spacing: int, arrowWidth: int) returns (r: int)
    ensures widths == [] ==> r == 1
    ensures widths != [] ==> 1 <= r <= |widths|
    ensures forall k :: FirstTooWide(widths, k, available, spacing, arrowWidth) ==> r == Max(1, k - 1)
    ensures widths != [] && (forall k :: 1 <= k <= |widths| ==> Fits(widths, k, available, spacing, arrowWidth))
      ==> r == |widths|
    ensures 1 < r ==> r <= |widths| && Fits(widths, r, available, spacing, arrowWidth)
  {
    if widths == [] {
      return 1;
    }
    for perRow := 1 to |widths| + 1
      invariant forall j :: 1 <= j < perRow ==> Fits(widths, j, available, spacing, arrowWidth)
    {
      var total := RowWidth(widths, Min(perRow, |widths|), spacing, arrowWidth);
      if total > available {
        assert FirstTooWide(widths, perRow, available, spacing, arrowWidth);
        return Max(1, perRow - 1);
      }
    }
    return |widths|;
  }

  /** `num_rows`: the number of rows of `perRow` nodes that hold `n` nodes. */
  function NumRows(n: nat, perRow: int): (rows: int)
    requires perRow >= 1
  {
    (n + perRow - 1) / perRow
  }

  /** The rows are the ceiling of `n / perRow`: enough for every node, and one fewer would not be. */
  lemma RowsAreCeiling(n: nat, perRow: int)
    requires perRow >= 1
    ensures NumRows(n, perRow) * perRow >= n
    ensures (NumRows(n, perRow) - 1) * perRow < n || n == 0
    ensures NumRows(n, perRow) == 0 <==> n == 0
  {
    var q := NumRows(n, perRow);
    var rem := (n + perRow - 1) % perRow;
    assert n + perRow - 1 == q * perRow + rem;
    assert 0 <= rem < perRow;
    assert q * perRow == n + perRow - 1 - rem;
    assert (q - 1) * perRow == q * perRow - perRow;
    if n == 0 {
      assert 0 <= perRow - 1 < perRow;
      assert q == 0;
    }
  }

  // ------------------------------------------------------------------
  // the canvas

  /**
   * `after` is `before` with every name of `names` it lacked added at
   * `initial`: the known entries are kept, and only the names are new.
   */
  ghost predicate Initialised<V>(before: map<string, V>, after: map<string, V>, names: seq<string>, initial: V) {
    && after.Keys == before.Keys + (set n | n in names)
    && (forall n :: n in before ==> after[n] == before[n])
    && (forall n :: n in after && n !in before ==> after[n] == initial)
  }

  lemma InitialisedSnoc<V>(before: map<string, V>, after: map<string, V>, names: seq<string>, name: string, initial: V)
    requires Initialised(before, after, names, initial)
    ensures Initialised(before, if name in after then after else after[name := initial], names + [name], initial)
  {
    assert (set n | n in names + [name]) == (set n | n in names) + {name};
  }

  class PluginChainCanvas {
    var chain: seq<string>
    var metadata: map<string, Dict>
    /** whether each plugin is enabled */
    var status: map<string, bool>
    /** what each plugin is doing: "idle", or a state the processing sets */
    var processing: map<string, string>

    constructor()
      ensures chain == [] && metadata == map[] && status == map[] && processing == map[]
    {
      chain := [];
      metadata := map[];
      status := map[];
      processing := map[];
    }

    /**
     * `update_plugin_chain`: the chain and metadata are replaced, and every
     * plugin not seen before starts enabled and idle; known plugins keep
     * their states.
     */
    method UpdatePluginChain(pluginChain: seq<string>, pluginMetadata: map<string, Dict>)
      modifies this
      ensures chain == pluginChain && metadata == pluginMetadata
      ensures Initialised(old(status), status, pluginChain, true)
      ensures Initialised(old(processing), processing, pluginChain, "idle")
    {
      chain := pluginChain;
      metadata := pluginMetadata;
      for i := 0 to |pluginChain|
        invariant chain == pluginChain && metadata == pluginMetadata
        invariant Initialised(old(status), status, pluginChain[..i], true)
        invariant Initialised(old(processing), processing, pluginChain[..i], "idle")
      {
        var name := pluginChain[i];
        assert pluginChain[..i + 1] == pluginChain[..i] + [name];
        InitialisedSnoc(old(status), status, pluginChain[..i], name, true);
        InitialisedSnoc(old(processing), processing, pluginChain[..i], name, "idle");
        if name !in status {
          status := status[name := true];
        }
        if name !in processing {
          processing := processing[name := "idle"];
        }
      }
      assert pluginChain[..|pluginChain|] == pluginChain;
    }

    /** `update_plugin_status` */
    method UpdatePluginStatus(name: string, enabled: bool)
      modifies this
      ensures status == old(status)[name := enabled]
      ensures chain == old(chain) && metadata == old(metadata) && processing == old(processing)
    {
      status := status[name := enabled];
    }

    /** `set_plugin_processing_status` */
    method SetPluginProcessingStatus(name: string, state: string)
      modifies this
      ensures processing == old(processing)[name := state]
      ensures chain == old(chain) && metadata == old(metadata) && status == old(status)
    {
      processing := processing[name := state];
    }
  }
}
