/**
  `PatternBasedClassifier`: fitting learns, per error type, the frequent
  phrases of its training messages and a fixed set of weighted regex
  signals; prediction scores every type and keeps the first best one.
*/
module PatternBased {
  import opened Outcomes
  import opened ErrorTypes
  import opened Classification
  import Grouping
  import Ratios

  /** One `(pattern, confidence, keywords)` tuple of `self.patterns[error_type]`. */
  datatype LearnedPattern = LearnedPattern(pattern: string, confidence: real, keywords: seq<string>)

  /**
    The classifier's state: `self.patterns` as an insertion-ordered
    dictionary. Escaped phrases and the fixed signals always compile, so
    `compiled_patterns[t]` holds exactly the patterns of `t` and is not kept.
  */
  datatype PatternClassifier = PatternClassifier(
    name: string,
    patterns: Grouping.Groups<ErrorTypeId, LearnedPattern>,
    isFitted: bool)

  function NewClassifier(name: string): (c: PatternClassifier)
    ensures c.name == name && c.patterns == [] && !c.isFitted
  {
    PatternClassifier(name, [], false)
  }

  /** Words `_extract_keywords_from_substring` and `_extract_keywords_from_pattern` drop. */
  function PatternStopWords(): seq<string> {
    ["error", "failed"]
  }

  /** `_extract_regex_patterns`' signals with their base weights, in order. */
  function Signals(): (ss: seq<(string, real)>)
    ensures |ss| == 7
  {
    seq(7, Signal)
  }

  /** The signal at position `k`, with its base weight. */
  function Signal(k: nat): (string, real) {
    if k == 0 then ("\\d{3}", 0.1)
    else if k == 1 then ("error|failed|exception", 0.2)
    else if k == 2 then ("timeout|timed out", 0.3)
    else if k == 3 then ("connection.*reset", 0.4)
    else if k == 4 then ("permission.*denied", 0.5)
    else if k == 5 then ("not.*found", 0.4)
    else ("invalid.*input", 0.3)
  }

  // ---------------------------------------------------------------------------
  // Phrases
  // ---------------------------------------------------------------------------

  /** `' '.join(words)`. */
  function Join(words: seq<string>): string {
    if words == [] then "" else if |words| == 1 then words[0] else words[0] + " " + Join(words[1..])
  }

  /** Words `i` (inclusive) to `j` (exclusive) form a phrase: one to three words, over five characters once joined. */
  ghost predicate IsPhrase(words: seq<string>, i: int, j: int) {
    0 <= i < j <= |words| && j - i <= 3 && |Join(words[i..j])| > 5
  }

  /** The phrases starting at word `i` and ending at word `j` or later. */
  function PhrasesEndingFrom(words: seq<string>, i: nat, j: nat): (ps: seq<string>)
    requires i < j
    ensures forall p | p in ps :: exists j' | j <= j' :: IsPhrase(words, i, j') && p == Join(words[i..j'])
    ensures forall j' | j <= j' && IsPhrase(words, i, j') :: Join(words[i..j']) in ps
    decreases |words| + 3 - j
  {
    if j > |words| || j > i + 3 then [] else
      var p := Join(words[i..j]);
      if |p| > 5 then
        assert IsPhrase(words, i, j);
        [p] + PhrasesEndingFrom(words, i, j + 1)
      else
        PhrasesEndingFrom(words, i, j + 1)
  }

  /** The phrases starting at word `i` or later. */
  function PhrasesFrom(words: seq<string>, i: nat): (ps: seq<string>)
    ensures forall p | p in ps :: exists i', j | i <= i' :: IsPhrase(words, i', j) && p == Join(words[i'..j])
    ensures forall i', j | i <= i' && IsPhrase(words, i', j) :: Join(words[i'..j]) in ps
    decreases |words| - i
  {
    if i >= |words| then [] else PhrasesEndingFrom(words, i, i + 1) + PhrasesFrom(words, i + 1)
  }

  /**
    The phrases of one message, one entry per occurrence: `' '.join` of 1 to 3
    consecutive words that is longer than five characters.
  */
  function MessagePhrases(words: seq<string>): (ps: seq<string>)
    ensures forall p | p in ps :: exists i, j :: IsPhrase(words, i, j) && p == Join(words[i..j])
    ensures forall i, j | IsPhrase(words, i, j) :: Join(words[i..j]) in ps
  {
    PhrasesFrom(words, 0)
  }

  /** Every phrase occurrence of every message, lowercased and split on whitespace. */
  function AllPhrases(o: TextOracle, messages: seq<string>): seq<string> {
    if messages == [] then [] else
      MessagePhrases(o.split(o.lower(messages[0]))) + AllPhrases(o, messages[1..])
  }

  /** `_extract_common_substrings`: each phrase with its number of occurrences, by first appearance. */
  function PhraseCounts(o: TextOracle, messages: seq<string>): (counts: seq<(string, nat)>) {
    var phrases := AllPhrases(o, messages);
    var groups := Grouping.GroupBy(Tagged(phrases));
    seq(|groups|, i requires 0 <= i < |groups| => (groups[i].0, |groups[i].1|))
  }

  /** Each phrase paired with nothing: counting a phrase is grouping its occurrences. */
  function Tagged(ps: seq<string>): (ts: seq<(string, ())>)
    ensures |ts| == |ps|
    ensures forall i | 0 <= i < |ps| :: ts[i] == (ps[i], ())
  {
    seq(|ps|, i requires 0 <= i < |ps| => (ps[i], ()))
  }

  /**
    The counts are a dictionary of the distinct phrases in order of first
    appearance, each with its number of occurrences.
  */
  lemma PhraseCountsAreOccurrences(o: TextOracle, messages: seq<string>)
    ensures Grouping.Keys(PhraseCounts(o, messages)) == Grouping.FirstSeen(AllPhrases(o, messages))
    ensures forall i | 0 <= i < |PhraseCounts(o, messages)| ::
      PhraseCounts(o, messages)[i].1 == multiset(AllPhrases(o, messages))[PhraseCounts(o, messages)[i].0]
  {
    var phrases := AllPhrases(o, messages);
    var groups := Grouping.GroupBy(Tagged(phrases));
    Grouping.GroupByIsReference(Tagged(phrases));
    assert Grouping.Keys(Tagged(phrases)) == phrases;
    assert Grouping.Keys(PhraseCounts(o, messages)) == Grouping.Keys(groups);
    forall i | 0 <= i < |groups| ensures |groups[i].1| == multiset(phrases)[groups[i].0] {
      SelectCountsOccurrences(phrases, groups[i].0);
    }
  }

  lemma {:induction false} SelectCountsOccurrences(ps: seq<string>, k: string)
    ensures |Grouping.Select(Tagged(ps), k)| == multiset(ps)[k]
  {
    if ps != [] {
      var n := |ps| - 1;
      assert Tagged(ps)[..n] == Tagged(ps[..n]);
      assert ps == ps[..n] + [ps[n]];
      SelectCountsOccurrences(ps[..n], k);
    }
  }

  // ---------------------------------------------------------------------------
  // Learning
  // ---------------------------------------------------------------------------

  /** `count / total`, or 0.0 when there is nothing to divide by. */
  function Fraction(count: nat, total: nat): real {
    if total == 0 then 0.0 else count as real / total as real
  }

  /** The pattern learned from a frequent phrase: escaped, at count / message count. */
  function FromPhrase(o: TextOracle, phrase: string, count: nat, total: nat): LearnedPattern {
    LearnedPattern(o.escape(phrase), Fraction(count, total), Keywords(o, phrase, PatternStopWords()))
  }

  /** The phrases whose count is at least 30% of the message count. */
  function PhrasePatterns(o: TextOracle, counts: seq<(string, nat)>, total: nat): (lps: seq<LearnedPattern>)
    ensures forall lp | lp in lps :: exists i | 0 <= i < |counts| ::
      ClearsThreshold(counts[i].1, total) && lp == FromPhrase(o, counts[i].0, counts[i].1, total)
    ensures forall i | 0 <= i < |counts| && ClearsThreshold(counts[i].1, total) ::
      FromPhrase(o, counts[i].0, counts[i].1, total) in lps
  {
    if counts == [] then [] else
      var rest := PhrasePatterns(o, counts[1..], total);
      assert forall i | 1 <= i < |counts| :: counts[i] == counts[1..][i - 1];
      (if ClearsThreshold(counts[0].1, total) then [FromPhrase(o, counts[0].0, counts[0].1, total)] else []) + rest
  }

  /** `matches / len(messages) * base_confidence`. */
  function SignalConfidence(count: nat, total: nat, base: real): real {
    Fraction(count, total) * base
  }

  /** The pattern learned from a signal: its match fraction times its base weight. */
  function FromSignal(o: TextOracle, signal: (string, real), messages: seq<string>): LearnedPattern {
    LearnedPattern(signal.0, SignalConfidence(CountMatches(o, signal.0, messages), |messages|, signal.1),
                   Keywords(o, signal.0, PatternStopWords()))
  }

  /** The signals matching at least one message. */
  function SignalPatterns(o: TextOracle, signals: seq<(string, real)>, messages: seq<string>): (lps: seq<LearnedPattern>)
    ensures forall lp | lp in lps :: exists i | 0 <= i < |signals| ::
      CountMatches(o, signals[i].0, messages) > 0 && lp == FromSignal(o, signals[i], messages)
    ensures forall i | 0 <= i < |signals| && CountMatches(o, signals[i].0, messages) > 0 ::
      FromSignal(o, signals[i], messages) in lps
  {
    if signals == [] then [] else
      var rest := SignalPatterns(o, signals[1..], messages);
      assert forall i | 1 <= i < |signals| :: signals[i] == signals[1..][i - 1];
      (if CountMatches(o, signals[0].0, messages) > 0 then [FromSignal(o, signals[0], messages)] else []) + rest
  }

  /** `_learn_patterns`: the frequent phrases, then the matching signals. */
  function LearnPatterns(o: TextOracle, messages: seq<string>): seq<LearnedPattern> {
    PhrasePatterns(o, PhraseCounts(o, messages), |messages|) + SignalPatterns(o, Signals(), messages)
  }

  /** Phrase patterns are learned at a count-to-messages ratio of at least 0.3; above 1 when a phrase repeats within messages. */
  lemma PhraseConfidences(o: TextOracle, messages: seq<string>)
    requires messages != []
    ensures forall lp | lp in PhrasePatterns(o, PhraseCounts(o, messages), |messages|) :: lp.confidence >= 3.0 / 10.0
  {
    var counts := PhraseCounts(o, messages);
    forall lp | lp in PhrasePatterns(o, counts, |messages|) ensures lp.confidence >= 3.0 / 10.0 {
      var i :| 0 <= i < |counts| && ClearsThreshold(counts[i].1, |messages|) && lp == FromPhrase(o, counts[i].0, counts[i].1, |messages|);
      AtLeastThreeTenths(counts[i].1, |messages|);
    }
  }

  /** Signal patterns keep their regex and are learned at a positive fraction of their base weight. */
  lemma SignalConfidences(o: TextOracle, signals: seq<(string, real)>, messages: seq<string>)
    requires forall i | 0 <= i < |signals| :: signals[i].1 > 0.0
    ensures forall lp | lp in SignalPatterns(o, signals, messages) :: exists i | 0 <= i < |signals| ::
      && lp.pattern == signals[i].0
      && 0.0 < lp.confidence <= signals[i].1
  {
    forall lp | lp in SignalPatterns(o, signals, messages)
      ensures exists i | 0 <= i < |signals| :: lp.pattern == signals[i].0 && 0.0 < lp.confidence <= signals[i].1
    {
      var i :| 0 <= i < |signals| && CountMatches(o, signals[i].0, messages) > 0 && lp == FromSignal(o, signals[i], messages);
      FromSignalBounds(o, signals[i], messages);
    }
  }

  lemma FromSignalBounds(o: TextOracle, signal: (string, real), messages: seq<string>)
    requires CountMatches(o, signal.0, messages) > 0 && signal.1 > 0.0
    ensures FromSignal(o, signal, messages).pattern == signal.0
    ensures 0.0 < FromSignal(o, signal, messages).confidence <= signal.1
  {
    SignalConfidenceBounds(CountMatches(o, signal.0, messages), |messages|, signal.1);
  }

  lemma AtLeastThreeTenths(count: nat, total: nat)
    requires 0 < total && ClearsThreshold(count, total)
    ensures Fraction(count, total) >= 3.0 / 10.0
  {
    Ratios.AtLeastThreeTenths(count, total);
  }

  lemma SignalConfidenceBounds(count: nat, total: nat, base: real)
    requires 0 < count <= total && base > 0.0
    ensures 0.0 < SignalConfidence(count, total, base) <= base
  {
    var q := count as real / total as real;
    Ratios.FractionBounds(count, total);
    assert base - q * base == (1.0 - q) * base;
  }

  // ---------------------------------------------------------------------------
  // Fitting
  // ---------------------------------------------------------------------------

  /** `self.patterns[error_type] = self._learn_patterns(messages)` for each group in order. */
  function LearnAll(d: Grouping.Groups<ErrorTypeId, LearnedPattern>, o: TextOracle,
                    groups: Grouping.Groups<ErrorTypeId, string>): Grouping.Groups<ErrorTypeId, LearnedPattern>
  {
    Grouping.PutEach(d, groups, ms => LearnPatterns(o, ms))
  }

  /**
    `fit`: unequal message and type lists raise and leave the classifier
    unchanged; otherwise each trained type's entry is replaced by what is
    learned from its messages, and the other types keep theirs.
  */
  function Fit(c: PatternClassifier, o: TextOracle, data: TrainingData): (r: Result<PatternClassifier, Failure>)
    ensures r.Err? <==> |data.errorMessages| != |data.errorTypes|
    ensures r.Err? ==> r.error == LengthMismatch
    ensures r.Ok? ==> r.value.isFitted && r.value.name == c.name
  {
    if |data.errorMessages| != |data.errorTypes| then Err(LengthMismatch)
    else Ok(PatternClassifier(c.name, LearnAll(c.patterns, o, Grouping.GroupBy(Pairs(data))), true))
  }

  lemma FitLookup(c: PatternClassifier, o: TextOracle, data: TrainingData, t: ErrorTypeId)
    requires Fit(c, o, data).Ok?
    ensures t in data.errorTypes ==>
      Grouping.Lookup(Fit(c, o, data).value.patterns, t) == Some(LearnPatterns(o, TypeMessages(data, t)))
    ensures t !in data.errorTypes ==>
      Grouping.Lookup(Fit(c, o, data).value.patterns, t) == Grouping.Lookup(c.patterns, t)
  {
    var groups := Grouping.GroupBy(Pairs(data));
    Grouping.GroupByIsReference(Pairs(data));
    assert Grouping.Keys(Pairs(data)) == data.errorTypes;
    Grouping.PutEachLookup(c.patterns, groups, ms => LearnPatterns(o, ms), t);
  }

  /**
    After `fit` the learned types keep their order and the newly trained types
    follow, in the order they first occur in the training data.
  */
  lemma FitKeyOrder(c: PatternClassifier, o: TextOracle, data: TrainingData)
    requires Fit(c, o, data).Ok?
    ensures Grouping.Keys(Fit(c, o, data).value.patterns)
      == Grouping.Keys(c.patterns) + Grouping.NewKeys(Grouping.Keys(c.patterns), Grouping.FirstSeen(data.errorTypes))
  {
    Grouping.GroupByIsReference(Pairs(data));
    assert Grouping.Keys(Pairs(data)) == data.errorTypes;
    Grouping.PutEachKeyOrder(c.patterns, Grouping.GroupBy(Pairs(data)), ms => LearnPatterns(o, ms));
  }

  // ---------------------------------------------------------------------------
  // Prediction
  // ---------------------------------------------------------------------------

  /** Some pattern of the type matches the message. */
  function AnyMatches(o: TextOracle, message: string, pats: seq<LearnedPattern>): (b: bool)
    ensures b <==> exists i | 0 <= i < |pats| :: o.search(pats[i].pattern, message)
  {
    if pats == [] then false
    else
      assert forall i | 1 <= i < |pats| :: pats[i] == pats[1..][i - 1];
      o.search(pats[0].pattern, message) || AnyMatches(o, message, pats[1..])
  }

  /**
    `predict`'s inner loops for one type: for each listed pattern, the loop over
    the type's compiled patterns adds that pattern's confidence once as soon as
    any compiled pattern matches.
  */
  function TypeScan(o: TextOracle, message: string, pats: seq<LearnedPattern>, compiled: seq<LearnedPattern>): (real, seq<string>) {
    if pats == [] then (0.0, []) else
      var n := |pats| - 1;
      var (score, matched) := TypeScan(o, message, pats[..n], compiled);
      if AnyMatches(o, message, compiled) then (score + pats[n].confidence, matched + [pats[n].pattern])
      else (score, matched)
  }

  function SumConfidence(pats: seq<LearnedPattern>): real {
    if pats == [] then 0.0 else SumConfidence(pats[1..]) + pats[0].confidence
  }

  function PatternStrings(pats: seq<LearnedPattern>): (ps: seq<string>)
    ensures |ps| == |pats|
    ensures forall i | 0 <= i < |pats| :: ps[i] == pats[i].pattern
  {
    seq(|pats|, i requires 0 <= i < |pats| => pats[i].pattern)
  }

  /** A type's score and evidence; its compiled patterns are its listed patterns. */
  function TypeScore(o: TextOracle, message: string, pats: seq<LearnedPattern>): (real, seq<string>) {
    TypeScan(o, message, pats, pats)
  }

  /**
    A type scores the sum of all its pattern confidences, with every pattern as
    evidence, when any of its patterns matches, and 0.0 with no evidence otherwise.
  */
  lemma TypeScoreIsSum(o: TextOracle, message: string, pats: seq<LearnedPattern>)
    ensures TypeScore(o, message, pats) ==
      if AnyMatches(o, message, pats) then (SumConfidence(pats), PatternStrings(pats)) else (0.0, [])
  {
    TypeScanSum(o, message, pats, pats);
  }

  lemma {:induction false} TypeScanSum(o: TextOracle, message: string, pats: seq<LearnedPattern>, compiled: seq<LearnedPattern>)
    ensures TypeScan(o, message, pats, compiled) ==
      if AnyMatches(o, message, compiled) then (SumConfidence(pats), PatternStrings(pats)) else (0.0, [])
  {
    if pats != [] {
      var n := |pats| - 1;
      TypeScanSum(o, message, pats[..n], compiled);
      SumSnoc(pats[..n], pats[n]);
      assert pats[..n] + [pats[n]] == pats;
      assert PatternStrings(pats) == PatternStrings(pats[..n]) + [pats[n].pattern];
    }
  }

  lemma {:induction false} SumSnoc(pats: seq<LearnedPattern>, p: LearnedPattern)
    ensures SumConfidence(pats + [p]) == SumConfidence(pats) + p.confidence
  {
    if pats != [] {
      assert (pats + [p])[1..] == pats[1..] + [p];
      SumSnoc(pats[1..], p);
    }
  }

  /** The running best of `predict`'s outer loop. */
  datatype Best = Best(errorType: Option<ErrorTypeId>, confidence: real, patterns: seq<string>)

  /** Only a strictly greater score replaces the best. */
  function BestStep(o: TextOracle, message: string, b: Best, entry: (ErrorTypeId, seq<LearnedPattern>)): Best {
    var (score, matched) := TypeScore(o, message, entry.1);
    if score > b.confidence then Best(Some(entry.0), score, matched) else b
  }

  function BestScan(o: TextOracle, message: string, entries: Grouping.Groups<ErrorTypeId, LearnedPattern>): Best {
    if entries == [] then Best(None, 0.0, []) else
      var n := |entries| - 1;
      BestStep(o, message, BestScan(o, message, entries[..n]), entries[n])
  }

  /** The score of entry `i`. */
  function EntryScore(o: TextOracle, message: string, entries: Grouping.Groups<ErrorTypeId, LearnedPattern>, i: nat): real
    requires i < |entries|
  {
    TypeScore(o, message, entries[i].1).0
  }

  /** Every entry's score, in order. */
  function Scores(o: TextOracle, message: string, entries: Grouping.Groups<ErrorTypeId, LearnedPattern>): (s: seq<real>)
    ensures |s| == |entries|
    ensures forall i | 0 <= i < |entries| :: s[i] == EntryScore(o, message, entries, i)
  {
    seq(|entries|, i requires 0 <= i < |entries| => EntryScore(o, message, entries, i))
  }

  /** `i` holds the first greatest score, and that score is positive. */
  ghost predicate FirstArgmax(s: seq<real>, i: int) {
    && 0 <= i < |s|
    && s[i] > 0.0
    && (forall j | 0 <= j < i :: s[j] < s[i])
    && (forall j | 0 <= j < |s| :: s[j] <= s[i])
  }

  ghost predicate NonePositive(s: seq<real>) {
    forall j | 0 <= j < |s| :: s[j] <= 0.0
  }

  /** The running best after entry `i` replaced it. */
  function BestAt(o: TextOracle, message: string, entries: Grouping.Groups<ErrorTypeId, LearnedPattern>, i: nat): Best
    requires i < |entries|
  {
    var (score, matched) := TypeScore(o, message, entries[i].1);
    Best(Some(entries[i].0), score, matched)
  }

  /**
    The outer loop is a first-argmax: no type wins when no score is positive;
    otherwise the winner is the earliest entry with the greatest score.
  */
  lemma {:induction false} BestIsFirstArgmax(o: TextOracle, message: string, entries: Grouping.Groups<ErrorTypeId, LearnedPattern>)
    ensures BestScan(o, message, entries).errorType.None? <==> NonePositive(Scores(o, message, entries))
    ensures BestScan(o, message, entries).errorType.None? ==> BestScan(o, message, entries) == Best(None, 0.0, [])
    ensures BestScan(o, message, entries).errorType.Some? ==> exists i ::
      FirstArgmax(Scores(o, message, entries), i) && BestScan(o, message, entries) == BestAt(o, message, entries, i)
  {
    if entries != [] {
      var n := |entries| - 1;
      var prefix := entries[..n];
      var s := Scores(o, message, entries);
      var sp := Scores(o, message, prefix);
      assert sp == s[..n] by {
        forall j | 0 <= j < n ensures sp[j] == s[j] {
          assert prefix[j] == entries[j];
        }
      }
      BestIsFirstArgmax(o, message, prefix);
      var b := BestScan(o, message, prefix);
      assert BestScan(o, message, entries) == BestStep(o, message, b, entries[n]);
      if b.errorType.Some? {
        var i :| FirstArgmax(sp, i) && b == BestAt(o, message, prefix, i);
        assert prefix[i] == entries[i];
        assert b.confidence == s[i];
        if s[n] > b.confidence {
          ArgmaxReplaced(s, i);
          assert BestScan(o, message, entries) == BestAt(o, message, entries, n);
        } else {
          ArgmaxKept(s, i);
          assert BestScan(o, message, entries) == BestAt(o, message, entries, i);
        }
      } else if s[n] > 0.0 {
        ArgmaxFromNone(s);
        assert BestScan(o, message, entries) == BestAt(o, message, entries, n);
      } else {
        NonePositiveKept(s);
      }
    }
  }

  /** A new score above the running first argmax becomes the first argmax. */
  lemma ArgmaxReplaced(s: seq<real>, i: nat)
    requires s != [] && FirstArgmax(s[..|s| - 1], i) && s[|s| - 1] > s[i]
    ensures FirstArgmax(s, |s| - 1)
  {
    var n := |s| - 1;
    forall j | 0 <= j < n ensures s[j] < s[n] {
      assert s[..n][j] == s[j];
    }
  }

  /** A new score not above the running first argmax leaves it in place. */
  lemma ArgmaxKept(s: seq<real>, i: nat)
    requires s != [] && FirstArgmax(s[..|s| - 1], i) && s[|s| - 1] <= s[i]
    ensures FirstArgmax(s, i)
  {
    var n := |s| - 1;
    forall j | 0 <= j < n ensures s[j] <= s[i] && (j < i ==> s[j] < s[i]) {
      assert s[..n][j] == s[j];
    }
  }

  /** The first positive score is the first argmax so far. */
  lemma ArgmaxFromNone(s: seq<real>)
    requires s != [] && NonePositive(s[..|s| - 1]) && s[|s| - 1] > 0.0
    ensures FirstArgmax(s, |s| - 1)
  {
    var n := |s| - 1;
    forall j | 0 <= j < n ensures s[j] <= 0.0 {
      assert s[..n][j] == s[j];
    }
  }

  lemma NonePositiveKept(s: seq<real>)
    requires s != [] && NonePositive(s[..|s| - 1]) && s[|s| - 1] <= 0.0
    ensures NonePositive(s)
  {
    var n := |s| - 1;
    forall j | 0 <= j < n ensures s[j] <= 0.0 {
      assert s[..n][j] == s[j];
    }
  }

  function Min(a: real, b: real): real {
    if a <= b then a else b
  }

  /** The type a fitted classifier predicts: the best-scoring type, else UNKNOWN_ERROR. */
  function PredictedType(c: PatternClassifier, o: TextOracle, message: string): ErrorTypeId {
    BestScan(o, message, c.patterns).errorType.GetOr(UnknownError)
  }

  /** The prediction of a fitted classifier; UNKNOWN_ERROR's own metadata when no type scores. */
  function Classify(c: PatternClassifier, o: TextOracle, message: string): (r: ClassificationResult)
    ensures r.errorType == PredictedType(c, o, message)
    ensures 0.0 <= r.confidence <= 1.0
    ensures r.metadata == GetErrorMetadata(r.errorType)
    ensures r.classificationPath == Prefixed("pattern_match:", r.matchedPatterns)
  {
    var b := BestScan(o, message, c.patterns);
    BestIsFirstArgmax(o, message, c.patterns);
    var t := PredictedType(c, o, message);
    var metadata := GetErrorMetadata(t);
    ClassificationResult(t, Min(b.confidence, 1.0), metadata, Prefixed("pattern_match:", b.patterns), b.patterns,
                         SuggestedActions(metadata, PatternHintCategories))
  }

  /** `predict`: fails before `fit`. */
  function Predict(c: PatternClassifier, o: TextOracle, message: string): (r: Result<ClassificationResult, Failure>)
    ensures r.Err? <==> !c.isFitted
    ensures r.Err? ==> r.error == NotFitted
  {
    if !c.isFitted then Err(NotFitted) else Ok(Classify(c, o, message))
  }

  /**
    A fitted classifier predicts the first type with the greatest positive
    score, at that score capped at 1.0; with no positive score it predicts
    UNKNOWN_ERROR at 0.0 with no evidence.
  */
  lemma PredictOutcome(c: PatternClassifier, o: TextOracle, message: string)
    requires c.isFitted
    ensures var r := Predict(c, o, message).value;
      && (NonePositive(Scores(o, message, c.patterns)) ==>
        r.errorType == UnknownError && r.confidence == 0.0 && r.matchedPatterns == [])
      && (!NonePositive(Scores(o, message, c.patterns)) ==> exists i ::
          && FirstArgmax(Scores(o, message, c.patterns), i)
          && r.errorType == c.patterns[i].0
          && r.confidence == Min(EntryScore(o, message, c.patterns, i), 1.0)
          && r.matchedPatterns == TypeScore(o, message, c.patterns[i].1).1)
  {
    var b := BestScan(o, message, c.patterns);
    var r := Classify(c, o, message);
    assert r.errorType == b.errorType.GetOr(UnknownError) && r.confidence == Min(b.confidence, 1.0)
      && r.matchedPatterns == b.patterns;
    BestIsFirstArgmax(o, message, c.patterns);
  }

  // ---------------------------------------------------------------------------
  // Probabilities and score
  // ---------------------------------------------------------------------------

  function ProbaScan(o: TextOracle, message: string, entries: Grouping.Groups<ErrorTypeId, LearnedPattern>): map<ErrorTypeId, real> {
    if entries == [] then map[] else
      var n := |entries| - 1;
      var probs := ProbaScan(o, message, entries[..n]);
      var score := EntryScore(o, message, entries, n);
      if score > 0.0 then probs[entries[n].0 := Min(score, 1.0)] else probs
  }

  /**
    `predict_proba` (no fit check): every type with a positive score, at that
    score capped at 1.0; an unfitted classifier has no entries and gives `{}`.
  */
  function PredictProba(c: PatternClassifier, o: TextOracle, message: string): (probs: map<ErrorTypeId, real>)
    ensures c.patterns == [] ==> probs == map[]
  {
    ProbaScan(o, message, c.patterns)
  }

  lemma {:induction false} ProbaScanSpec(o: TextOracle, message: string, entries: Grouping.Groups<ErrorTypeId, LearnedPattern>)
    requires Grouping.Distinct(Grouping.Keys(entries))
    ensures forall t | t in ProbaScan(o, message, entries) ::
      exists i | 0 <= i < |entries| :: entries[i].0 == t && EntryScore(o, message, entries, i) > 0.0
    ensures forall i | 0 <= i < |entries| && EntryScore(o, message, entries, i) > 0.0 ::
      && entries[i].0 in ProbaScan(o, message, entries)
      && ProbaScan(o, message, entries)[entries[i].0] == Min(EntryScore(o, message, entries, i), 1.0)
  {
    if entries != [] {
      var n := |entries| - 1;
      var prefix := entries[..n];
      assert forall j | 0 <= j < n :: prefix[j] == entries[j];
      assert forall j | 0 <= j < n :: EntryScore(o, message, prefix, j) == EntryScore(o, message, entries, j);
      assert Grouping.Keys(prefix) == Grouping.Keys(entries)[..n];
      ProbaScanSpec(o, message, prefix);
      forall i | 0 <= i < n ensures entries[i].0 != entries[n].0 {
        assert Grouping.Keys(entries)[i] != Grouping.Keys(entries)[n];
      }
    }
  }

  /** The invariant `fit` keeps: each type has one entry. */
  ghost predicate WellFormed(c: PatternClassifier) {
    Grouping.Distinct(Grouping.Keys(c.patterns))
  }

  lemma FitWellFormed(c: PatternClassifier, o: TextOracle, data: TrainingData)
    requires WellFormed(c) && Fit(c, o, data).Ok?
    ensures WellFormed(Fit(c, o, data).value)
  {
    Grouping.PutEachKeys(c.patterns, Grouping.GroupBy(Pairs(data)), ms => LearnPatterns(o, ms));
  }

  /** For a well-formed classifier, the probabilities are exactly the positive scores, capped at 1.0. */
  lemma PredictProbaOutcome(c: PatternClassifier, o: TextOracle, message: string)
    requires WellFormed(c)
    ensures forall t | t in PredictProba(c, o, message) ::
      exists i | 0 <= i < |c.patterns| :: c.patterns[i].0 == t && EntryScore(o, message, c.patterns, i) > 0.0
    ensures forall i | 0 <= i < |c.patterns| && EntryScore(o, message, c.patterns, i) > 0.0 ::
      && c.patterns[i].0 in PredictProba(c, o, message)
      && PredictProba(c, o, message)[c.patterns[i].0] == Min(EntryScore(o, message, c.patterns, i), 1.0)
  {
    ProbaScanSpec(o, message, c.patterns);
  }

  /** Every probability a well-formed classifier reports lies in [0, 1]. */
  lemma ProbaBounds(c: PatternClassifier, o: TextOracle, message: string)
    requires WellFormed(c)
    ensures forall t | t in PredictProba(c, o, message) :: 0.0 <= PredictProba(c, o, message)[t] <= 1.0
  {
    var probs := PredictProba(c, o, message);
    PredictProbaOutcome(c, o, message);
    forall t | t in probs ensures 0.0 <= probs[t] <= 1.0 {
      var i :| 0 <= i < |c.patterns| && c.patterns[i].0 == t && EntryScore(o, message, c.patterns, i) > 0.0;
    }
  }

  /** `score`: accuracy of `predict` over the test data. */
  function Score(c: PatternClassifier, o: TextOracle, data: TrainingData): (r: Result<real, Failure>)
    ensures !c.isFitted ==> r == Err(NotFitted)
    ensures c.isFitted && |data.errorMessages| != |data.errorTypes| ==> r == Err(LengthMismatch)
    ensures c.isFitted && |data.errorMessages| == |data.errorTypes| && data.errorMessages == [] ==> r == Ok(0.0)
    ensures c.isFitted && |data.errorMessages| == |data.errorTypes| && data.errorMessages != [] ==>
      r == Ok(|set i: nat | i < |data.errorTypes| && PredictedType(c, o, data.errorMessages[i]) == data.errorTypes[i]| as real
        / |data.errorMessages| as real)
  {
    var predicted := seq(|data.errorMessages|, i requires 0 <= i < |data.errorMessages| =>
      PredictedType(c, o, data.errorMessages[i]));
    assert |data.errorMessages| == |data.errorTypes| ==>
      (set i: nat | i < |data.errorTypes| && predicted[i] == data.errorTypes[i])
        == (set i: nat | i < |data.errorTypes| && PredictedType(c, o, data.errorMessages[i]) == data.errorTypes[i]);
    Classification.Score(c.isFitted, predicted, data)
  }
}
