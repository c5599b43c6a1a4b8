/**
 * The filler remover of the core pipeline. Each sentence is split on
 * whitespace and scanned word by word: a word equal (ignoring case) to the
 * next one is dropped as a repeat, a word in the language's filler set is
 * dropped, and a context word (English "so", "now", "ok", "okay"; Chinese
 * "所以", "现在") is dropped when one of its filler patterns matches the
 * window of two words before and after it and none of its valid patterns
 * does. Every dropped word is counted; sentences left empty disappear.
 */
module FillerRemover {
  import opened Wrappers
  import opened Values
  import opened PyText

  // ------------------------------------------------------------------
  // The language tables

  /**
   * The four regular-expression shapes of the tables, matched against the
   * lower-cased window: `w\s`, `w$`, `^w\b` and a plain phrase.
   */
  datatype Pattern =
    | Spaced(w: string)
    | Final(w: string)
    | Initial(w: string)
    | Phrase(p: string)

  datatype Usage = Usage(isFiller: seq<Pattern>, isValid: seq<Pattern>)

  /** `filler_words` and `filler_patterns` */
  datatype Tables = Tables(fillerWords: set<string>, fillerPatterns: map<string, Usage>)

  /** `filler_words`: "zh" selects the Chinese set, any other language the English one */
  function FillerWords(zh: bool): set<string> {
    if zh then {"嗯", "啊", "那个", "这个", "就是"}
    else {"um", "uh", "well", "like", "you know"}
  }

  /** `filler_patterns` */
  function FillerPatterns(zh: bool): map<string, Usage> {
    if zh then
      map[
        "所以" := Usage([Spaced("所以"), Final("所以"), Initial("所以")],
                       [Phrase("所以说"), Phrase("所以才"), Phrase("正所以")]),
        "现在" := Usage([Spaced("现在"), Final("现在"), Initial("现在")],
                       [Phrase("到现在"), Phrase("从现在"), Phrase("现在就")])]
    else
      map[
        "so" := Usage([Spaced("so"), Final("so"), Initial("so")],
                      [Phrase("so that"), Phrase("and so on"), Phrase("if so")]),
        "now" := Usage([Spaced("now"), Final("now"), Initial("now")],
                       [Phrase("by now"), Phrase("until now"), Phrase("from now")]),
        "ok" := Usage([Spaced("ok"), Final("ok"), Initial("ok")],
                      [Phrase("is ok"), Phrase("ok with"), Phrase("if ok")]),
        "okay" := Usage([Spaced("okay"), Final("okay"), Initial("okay")],
                        [Phrase("is okay"), Phrase("okay with"), Phrase("if okay")])]
  }

  /** the tables `__init__` picks */
  function TablesFor(zh: bool): Tables {
    Tables(FillerWords(zh), FillerPatterns(zh))
  }

  // ------------------------------------------------------------------
  // Pattern search

  /** `w` followed by whitespace starts at `i` */
  predicate SpacedAt(s: string, w: string, i: int) {
    OccursAt(s, w, i) && i + |w| < |s| && IsSpace(s[i + |w|])
  }

  /** `re.search` of the pattern in an already lower-cased text */
  predicate Matches(p: Pattern, s: string) {
    match p
    case Spaced(w) => exists i :: 0 <= i < |s| && SpacedAt(s, w, i)
    case Final(w) => EndsWith(s, w)
    case Initial(w) => StartsWith(s, w) && (|s| == |w| || !IsWordChar(s[|w|]))
    case Phrase(q) => Contains(s, q)
  }

  /** `any(re.search(p, context, re.I) for p in ps)` */
  predicate AnyMatches(ps: seq<Pattern>, s: string) {
    exists k :: 0 <= k < |ps| && Matches(ps[k], s)
  }

  /** the words from two before `i` to two after it, joined by single spaces */
  function Context(words: seq<string>, i: nat): string
    requires i < |words|
  {
    var start := if i - 2 > 0 then i - 2 else 0;
    var end := if |words| < i + 3 then |words| else i + 3;
    Join(words[start..end], " ")
  }

  /** a context word used as filler: a filler pattern matches its window and no valid one does */
  predicate FillerUse(u: Usage, context: string) {
    var c := Lower(context);
    AnyMatches(u.isFiller, c) && !AnyMatches(u.isValid, c)
  }

  // ------------------------------------------------------------------
  // What happens to each word

  const RepeatedKey := "repeated_words"

  /** the statistics key word `i` is counted under, or None when it is kept */
  function RemovalKey(t: Tables, words: seq<string>, i: nat): Option<string>
    requires i < |words|
  {
    var w := Lower(words[i]);
    if i < |words| - 1 && w == Lower(words[i + 1]) then Some(RepeatedKey)
    else if w in t.fillerWords then Some(w)
    else if w in t.fillerPatterns && FillerUse(t.fillerPatterns[w], Context(words, i)) then Some(w)
    else None
  }

  /** the words among the first `n` that survive, in order */
  function KeptWords(t: Tables, words: seq<string>, n: nat): seq<string>
    requires n <= |words|
  {
    if n == 0 then []
    else KeptWords(t, words, n - 1) + (if RemovalKey(t, words, n - 1).None? then [words[n - 1]] else [])
  }

  /** the positions of those words */
  function KeptIndices(t: Tables, words: seq<string>, n: nat): seq<nat>
    requires n <= |words|
  {
    if n == 0 then []
    else KeptIndices(t, words, n - 1) + (if RemovalKey(t, words, n - 1).None? then [n - 1] else [])
  }

  /** the `Counter` lookup */
  function Get(stats: map<string, nat>, key: string): nat {
    if key in stats then stats[key] else 0
  }

  /** `stats[key] += 1` */
  function Bump(stats: map<string, nat>, key: string): (r: map<string, nat>)
    ensures Get(r, key) == Get(stats, key) + 1
    ensures forall k :: k != key ==> Get(r, k) == Get(stats, k)
  {
    stats[key := Get(stats, key) + 1]
  }

  /** the statistics after the first `n` words, starting from `stats` */
  function Tally(t: Tables, words: seq<string>, n: nat, stats: map<string, nat>): map<string, nat>
    requires n <= |words|
  {
    if n == 0 then stats
    else
      var before := Tally(t, words, n - 1, stats);
      match RemovalKey(t, words, n - 1)
      case None => before
      case Some(key) => Bump(before, key)
  }

  /** how many of the first `n` words are counted under `key` */
  function Count(t: Tables, words: seq<string>, n: nat, key: string): nat
    requires n <= |words|
  {
    if n == 0 then 0
    else Count(t, words, n - 1, key) + (if RemovalKey(t, words, n - 1) == Some(key) then 1 else 0)
  }

  /** how many of the first `n` words are dropped */
  function Removed(t: Tables, words: seq<string>, n: nat): nat
    requires n <= |words|
  {
    if n == 0 then 0
    else Removed(t, words, n - 1) + (if RemovalKey(t, words, n - 1).Some? then 1 else 0)
  }

  // ------------------------------------------------------------------
  // The whole list

  /** the output sentence of one input sentence, or None when every word went */
  function CleanSentence(t: Tables, sentence: string): Option<string> {
    var words := SplitWs(sentence);
    var kept := KeptWords(t, words, |words|);
    if kept == [] then None else Some(Join(kept, " "))
  }

  /** the output for the first `n` sentences */
  function Processed(t: Tables, sentences: seq<string>, n: nat): seq<string>
    requires n <= |sentences|
  {
    if n == 0 then []
    else
      var before := Processed(t, sentences, n - 1);
      match CleanSentence(t, sentences[n - 1])
      case None => before
      case Some(s) => before + [s]
  }

  /** the statistics after the first `n` sentences */
  function Stats(t: Tables, sentences: seq<string>, n: nat): map<string, nat>
    requires n <= |sentences|
  {
    if n == 0 then map[]
    else
      var words := SplitWs(sentences[n - 1]);
      Tally(t, words, |words|, Stats(t, sentences, n - 1))
  }

  // ------------------------------------------------------------------
  // Properties

  /**
   * The kept words are the words at the kept positions, the positions
   * increase, and a position is kept exactly when its word is not removed:
   * the output is a subsequence of the input words.
   */
  lemma {:induction false} KeptIndicesFacts(t: Tables, words: seq<string>, n: nat)
    requires n <= |words|
    ensures var idx := KeptIndices(t, words, n);
      var kept := KeptWords(t, words, n);
      |idx| == |kept| &&
      (forall k :: 0 <= k < |idx| ==> idx[k] < n && kept[k] == words[idx[k]]) &&
      (forall k, l :: 0 <= k < l < |idx| ==> idx[k] < idx[l]) &&
      (forall i :: 0 <= i < n ==> (i in idx <==> RemovalKey(t, words, i).None?))
    decreases n
  {
    if n > 0 {
      KeptIndicesFacts(t, words, n - 1);
    }
  }

  /** one more word: kept and appended, or counted under its key */
  lemma KeptStep(t: Tables, words: seq<string>, i: nat, stats: map<string, nat>)
    requires i < |words|
    ensures KeptWords(t, words, i + 1) ==
      KeptWords(t, words, i) + (if RemovalKey(t, words, i).None? then [words[i]] else [])
    ensures Tally(t, words, i + 1, stats) ==
      match RemovalKey(t, words, i)
      case None => Tally(t, words, i, stats)
      case Some(key) => Bump(Tally(t, words, i, stats), key)
  {
  }

  /** Every word is either kept or counted once: the counts and the output add up to the input. */
  lemma {:induction false} KeptPlusRemoved(t: Tables, words: seq<string>, n: nat)
    requires n <= |words|
    ensures |KeptWords(t, words, n)| + Removed(t, words, n) == n
    decreases n
  {
    if n > 0 {
      KeptPlusRemoved(t, words, n - 1);
    }
  }

  /** Each key's statistic grows by exactly the number of words counted under it. */
  lemma {:induction false} TallyCounts(t: Tables, words: seq<string>, n: nat, stats: map<string, nat>, key: string)
    requires n <= |words|
    ensures Get(Tally(t, words, n, stats), key) == Get(stats, key) + Count(t, words, n, key)
    decreases n
  {
    if n > 0 {
      TallyCounts(t, words, n - 1, stats, key);
    }
  }

  /** A word equal, ignoring case, to the word after it is dropped and counted as a repeat. */
  lemma RepeatDropped(t: Tables, words: seq<string>, i: nat)
    requires i + 1 < |words| && Lower(words[i]) == Lower(words[i + 1])
    ensures RemovalKey(t, words, i) == Some(RepeatedKey)
    ensures i !in KeptIndices(t, words, |words|)
  {
    KeptIndicesFacts(t, words, |words|);
  }

  /** A filler word that is not a repeat is dropped and counted under its lower-case form. */
  lemma FillerDropped(t: Tables, words: seq<string>, i: nat)
    requires i < |words| && Lower(words[i]) in t.fillerWords
    requires i + 1 < |words| ==> Lower(words[i]) != Lower(words[i + 1])
    ensures RemovalKey(t, words, i) == Some(Lower(words[i]))
    ensures i !in KeptIndices(t, words, |words|)
  {
    KeptIndicesFacts(t, words, |words|);
  }

  /**
   * Words other than repeats, filler words and context words are always
   * kept; a context word is dropped exactly when its window shows filler use.
   */
  lemma ContextWordRule(t: Tables, words: seq<string>, i: nat)
    requires i < |words|
    requires i + 1 < |words| ==> Lower(words[i]) != Lower(words[i + 1])
    requires Lower(words[i]) !in t.fillerWords
    ensures i in KeptIndices(t, words, |words|) <==>
      (Lower(words[i]) !in t.fillerPatterns ||
       !FillerUse(t.fillerPatterns[Lower(words[i])], Context(words, i)))
  {
    KeptIndicesFacts(t, words, |words|);
  }

  /**
   * A key holding whitespace is never counted: words come from
   * `sentence.split()`. So the "you know" entry of the English set never fires.
   */
  lemma {:induction false} SpacedKeyNeverCounted(t: Tables, words: seq<string>, n: nat, key: string, j: nat)
    requires n <= |words|
    requires forall k :: 0 <= k < |words| ==> NoSpace(words[k])
    requires j < |key| && IsSpace(key[j])
    ensures Count(t, words, n, key) == 0
    decreases n
  {
    if n > 0 {
      SpacedKeyNeverCounted(t, words, n - 1, key, j);
      var w := words[n - 1];
      if |w| == |key| {
        assert Lower(w)[j] == LowerChar(w[j]);
        assert Lower(w)[j] != key[j];
      }
      assert RemovalKey(t, words, n - 1) != Some(key);
    }
  }

  /** Applied to one sentence: the count under "you know" never changes. */
  lemma YouKnowNeverCounted(sentence: string, stats: map<string, nat>)
    ensures var words := SplitWs(sentence);
      Get(Tally(TablesFor(false), words, |words|, stats), "you know") == Get(stats, "you know")
  {
    var words := SplitWs(sentence);
    var key := "you know";
    assert IsSpace(key[3]);
    TallyCounts(TablesFor(false), words, |words|, stats, key);
    SpacedKeyNeverCounted(TablesFor(false), words, |words|, key, 3);
  }

  /** Every output sentence is non-empty and comes from an input sentence, so the output is never longer. */
  lemma {:induction false} ProcessedShorter(t: Tables, sentences: seq<string>, n: nat)
    requires n <= |sentences|
    ensures |Processed(t, sentences, n)| <= n
    ensures forall k :: 0 <= k < |Processed(t, sentences, n)| ==> Processed(t, sentences, n)[k] != ""
    decreases n
  {
    if n > 0 {
      ProcessedShorter(t, sentences, n - 1);
      var words := SplitWs(sentences[n - 1]);
      var kept := KeptWords(t, words, |words|);
      if kept != [] {
        KeptIndicesFacts(t, words, |words|);
        JoinFirstNonEmpty(kept);
      }
    }
  }

  /** Joining words whose first is non-empty gives a non-empty text. */
  lemma JoinFirstNonEmpty(parts: seq<string>)
    requires parts != [] && parts[0] != ""
    ensures Join(parts, " ") != ""
  {
    if |parts| > 1 {
      assert |Join(parts, " ")| >= |parts[0]|;
    }
  }

  // ------------------------------------------------------------------
  // The class

  /**
   * What `__init__` makes of its configuration: it reads `language` and then
   * `nlp`, so the first of them that is missing raises `KeyError`; otherwise
   * the result says whether the Chinese tables are chosen.
   */
  function InitOutcome(config: Dict): (r: Result<bool>)
    ensures r.Failure? <==> "language" !in config || "nlp" !in config
    ensures "language" !in config ==> r.error == "KeyError: 'language'"
    ensures "language" in config && "nlp" !in config ==> r.error == "KeyError: 'nlp'"
    ensures r.Success? ==> (r.value <==> config["language"] == VStr("zh"))
  {
    if "language" !in config then Failure("KeyError: 'language'")
    else if "nlp" !in config then Failure("KeyError: 'nlp'")
    else Success(config["language"] == VStr("zh"))
  }

  class FillerRemover {
    const config: Dict
    /** `self.language == "zh"` */
    const zh: bool
    const fillerWords: set<string>
    const fillerPatterns: map<string, Usage>

    /** `__init__` when it does not raise; `InitOutcome` gives the `KeyError` otherwise */
    constructor(config: Dict)
      requires InitOutcome(config).Success?
      ensures this.config == config && zh == InitOutcome(config).value
      ensures Tables(fillerWords, fillerPatterns) == TablesFor(zh)
    {
      this.config := config;
      zh := config["language"] == VStr("zh");
      fillerWords := FillerWords(config["language"] == VStr("zh"));
      fillerPatterns := FillerPatterns(config["language"] == VStr("zh"));
    }

    /** the scan of one sentence's words */
    method RemoveFillers(words: seq<string>, stats0: map<string, nat>) returns (processedWords: seq<string>, stats: map<string, nat>)
      ensures processedWords == KeptWords(Tables(fillerWords, fillerPatterns), words, |words|)
      ensures stats == Tally(Tables(fillerWords, fillerPatterns), words, |words|, stats0)
    {
      ghost var t := Tables(fillerWords, fillerPatterns);
      processedWords := [];
      stats := stats0;
      var i := 0;
      while i < |words|
        invariant 0 <= i <= |words|
        invariant processedWords == KeptWords(t, words, i)
        invariant stats == Tally(t, words, i, stats0)
      {
        var word := Lower(words[i]);
        ghost var key := RemovalKey(t, words, i);
        KeptStep(t, words, i, stats0);
        if i < |words| - 1 && word == Lower(words[i + 1]) {
          assert key == Some(RepeatedKey);
          stats := Bump(stats, RepeatedKey);
          i := i + 1;
          continue;
        }
        if word in fillerWords {
          assert key == Some(word);
          stats := Bump(stats, word);
          i := i + 1;
          continue;
        }
        if word in fillerPatterns {
          var start := if i - 2 > 0 then i - 2 else 0;
          var end := if |words| < i + 3 then |words| else i + 3;
          var context := Join(words[start..end], " ");
          assert context == Context(words, i);
          var isFiller := AnyMatches(fillerPatterns[word].isFiller, Lower(context));
          var isValid := AnyMatches(fillerPatterns[word].isValid, Lower(context));
          if isFiller && !isValid {
            assert key == Some(word);
            stats := Bump(stats, word);
            i := i + 1;
            continue;
          }
        }
        assert key == None;
        processedWords := processedWords + [words[i]];
        i := i + 1;
      }
    }

    /** `process`: the cleaned sentences and the counts of what was removed */
    method Process(sentences: seq<string>) returns (processed: seq<string>, stats: map<string, nat>)
      ensures processed == Processed(Tables(fillerWords, fillerPatterns), sentences, |sentences|)
      ensures stats == Stats(Tables(fillerWords, fillerPatterns), sentences, |sentences|)
    {
      processed := [];
      stats := map[];
      for n := 0 to |sentences|
        invariant processed == Processed(Tables(fillerWords, fillerPatterns), sentences, n)
        invariant stats == Stats(Tables(fillerWords, fillerPatterns), sentences, n)
      {
        var words := SplitWs(sentences[n]);
        var processedWords;
        processedWords, stats := RemoveFillers(words, stats);
        if processedWords != [] {
          processed := processed + [Join(processedWords, " ")];
        }
      }
    }
  }
}
