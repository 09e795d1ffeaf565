/**
  `RuleBasedClassifier`: fitting keeps the library patterns that match at
  least 30% of a type's training messages, as rules sorted by confidence;
  prediction takes the first matching rule, falls back to the ordered keyword
  table, and finally to UNKNOWN_ERROR.
*/
module RuleBased {
  import opened Outcomes
  import opened ErrorTypes
  import opened Classification
  import Grouping
  import Ratios

  /** One `(pattern, error_type, confidence, keywords)` tuple of `self.rules`. */
  datatype Rule = Rule(pattern: string, errorType: ErrorTypeId, confidence: real, keywords: seq<string>)

  /**
    The classifier's state. `library` is the `common_patterns` list that
    `_extract_patterns` tests: every classifier starts with `LibraryPatterns()`
    and nothing changes it. Every library pattern compiles, so
    `compiled_patterns` always holds every rule's pattern and is not kept.
  */
  datatype RuleClassifier = RuleClassifier(name: string, library: seq<string>, rules: seq<Rule>, isFitted: bool)

  function NewClassifier(name: string): (c: RuleClassifier)
    ensures c.name == name && c.rules == [] && !c.isFitted
    ensures c.library == LibraryPatterns()
  {
    RuleClassifier(name, LibraryPatterns(), [], false)
  }

  /** The library `_extract_patterns` draws from, in order. */
  function LibraryPatterns(): (ps: seq<string>)
    ensures |ps| == 17
  {
    seq(17, LibraryPattern)
  }

  /** The pattern at position `k` of the library. */
  function LibraryPattern(k: nat): string {
    if k == 0 then "timeout|timed out|deadline exceeded"
    else if k == 1 then "connection.*reset|reset by peer"
    else if k == 2 then "network.*error|connection.*failed"
    else if k == 3 then "dns.*error|name resolution"
    else if k == 4 then "ssl.*error|tls.*error|certificate.*error"
    else if k == 5 then "auth.*failed|invalid.*credentials|unauthorized"
    else if k == 6 then "forbidden|access.*denied|permission.*denied"
    else if k == 7 then "not.*found|404|missing.*resource"
    else if k == 8 then "validation.*error|invalid.*input|bad.*request"
    else if k == 9 then "config.*error|configuration.*error"
    else if k == 10 then "file.*not.*found|no.*such.*file"
    else if k == 11 then "disk.*space|no.*space|device.*full"
    else if k == 12 then "rate.*limit|quota.*exceeded|throttle"
    else if k == 13 then "server.*error|500|internal.*error"
    else if k == 14 then "merge.*conflict|conflict.*github|conflict.*gitlab"
    else if k == 15 then "git.*error|local.*git"
    else "ssh.*error|key.*error"
  }

  /** Words `_extract_keywords` drops. */
  function RuleStopWords(): seq<string> {
    ["error", "failed", "invalid"]
  }

  // ---------------------------------------------------------------------------
  // Fitting
  // ---------------------------------------------------------------------------

  /** `_extract_patterns` over a candidate list: those matching at least 30% of the messages, in order. */
  function ExtractPatterns(o: TextOracle, candidates: seq<string>, messages: seq<string>): (ps: seq<string>)
    ensures forall p | p in ps :: p in candidates && ClearsThreshold(CountMatches(o, p, messages), |messages|)
    ensures forall p | p in candidates && ClearsThreshold(CountMatches(o, p, messages), |messages|) :: p in ps
  {
    if candidates == [] then [] else
      var rest := ExtractPatterns(o, candidates[1..], messages);
      assert forall p | p in candidates :: p == candidates[0] || p in candidates[1..];
      if ClearsThreshold(CountMatches(o, candidates[0], messages), |messages|) then [candidates[0]] + rest else rest
  }

  /** `_calculate_pattern_confidence`: the fraction of messages the pattern matches. */
  function PatternConfidence(o: TextOracle, pattern: string, messages: seq<string>): real {
    if messages == [] then 0.0 else CountMatches(o, pattern, messages) as real / |messages| as real
  }

  /** The rule a pattern yields for a type: its match fraction and its keywords. */
  function MakeRule(o: TextOracle, t: ErrorTypeId, p: string, messages: seq<string>): Rule {
    Rule(p, t, PatternConfidence(o, p, messages), Keywords(o, p, RuleStopWords()))
  }

  /** The rules built for one type from its messages, drawing on a pattern library. */
  function RulesForType(o: TextOracle, library: seq<string>, t: ErrorTypeId, messages: seq<string>): (rs: seq<Rule>)
    ensures forall r | r in rs :: (
      && r == MakeRule(o, t, r.pattern, messages) && r.pattern in library
      && ClearsThreshold(CountMatches(o, r.pattern, messages), |messages|))
    ensures forall p | p in library && ClearsThreshold(CountMatches(o, p, messages), |messages|) ::
      MakeRule(o, t, p, messages) in rs
  {
    var ps := ExtractPatterns(o, library, messages);
    var rs := seq(|ps|, i requires 0 <= i < |ps| => MakeRule(o, t, ps[i], messages));
    RulesForTypeMembers(o, t, ps, rs, messages);
    rs
  }

  lemma RulesForTypeMembers(o: TextOracle, t: ErrorTypeId, ps: seq<string>, rs: seq<Rule>, messages: seq<string>)
    requires |rs| == |ps|
    requires forall i | 0 <= i < |ps| :: rs[i] == MakeRule(o, t, ps[i], messages)
    ensures forall r | r in rs :: r == MakeRule(o, t, r.pattern, messages) && r.pattern in ps
    ensures forall p | p in ps :: MakeRule(o, t, p, messages) in rs
  {
    forall p | p in ps ensures MakeRule(o, t, p, messages) in rs {
      var i :| 0 <= i < |ps| && ps[i] == p;
      assert rs[i] == MakeRule(o, t, p, messages);
    }
  }

  /** The rules of every group, group after group. */
  function GroupRules(o: TextOracle, library: seq<string>, groups: Grouping.Groups<ErrorTypeId, string>): (rs: seq<Rule>)
    ensures forall r | r in rs :: exists i | 0 <= i < |groups| :: r in RulesForType(o, library, groups[i].0, groups[i].1)
    ensures forall i, r | 0 <= i < |groups| && r in RulesForType(o, library, groups[i].0, groups[i].1) :: r in rs
  {
    if groups == [] then [] else
      var rest := GroupRules(o, library, groups[1..]);
      assert forall i | 1 <= i < |groups| :: groups[i] == groups[1..][i - 1];
      RulesForType(o, library, groups[0].0, groups[0].1) + rest
  }

  ghost predicate SortedByConfidence(rs: seq<Rule>) {
    forall i, j | 0 <= i < j < |rs| :: rs[i].confidence >= rs[j].confidence
  }

  /** Insert `r` before the first rule it is at least as confident as. */
  function InsertByConfidence(r: Rule, s: seq<Rule>): seq<Rule> {
    if s == [] || r.confidence >= s[0].confidence then [r] + s
    else [s[0]] + InsertByConfidence(r, s[1..])
  }

  lemma {:induction false} InsertIntoSorted(r: Rule, s: seq<Rule>)
    requires SortedByConfidence(s)
    ensures SortedByConfidence(InsertByConfidence(r, s))
    ensures multiset(InsertByConfidence(r, s)) == multiset(s) + multiset{r}
  {
    InsertPermutes(r, s);
    if s != [] && r.confidence < s[0].confidence {
      var rest := InsertByConfidence(r, s[1..]);
      InsertIntoSorted(r, s[1..]);
      InsertBounded(r, s[1..], s[0].confidence);
      var t := [s[0]] + rest;
      forall i, j | 0 <= i < j < |t| ensures t[i].confidence >= t[j].confidence {
        assert t[j] == rest[j - 1];
        if i > 0 {
          assert t[i] == rest[i - 1];
        }
      }
    } else {
      var t := [r] + s;
      forall i, j | 0 <= i < j < |t| ensures t[i].confidence >= t[j].confidence {
        assert t[j] == s[j - 1];
        if i > 0 {
          assert t[i] == s[i - 1];
        } else if j > 1 {
          assert s[0].confidence >= s[j - 1].confidence;
        }
      }
    }
  }

  /** Inserting keeps an upper bound on the confidences. */
  lemma InsertBounded(r: Rule, s: seq<Rule>, bound: real)
    requires r.confidence <= bound
    requires forall i | 0 <= i < |s| :: s[i].confidence <= bound
    ensures forall i | 0 <= i < |InsertByConfidence(r, s)| :: InsertByConfidence(r, s)[i].confidence <= bound
  {
    var t := InsertByConfidence(r, s);
    InsertPermutes(r, s);
    forall i | 0 <= i < |t| ensures t[i].confidence <= bound {
      assert t[i] in multiset(s) + multiset{r} by {
        assert t[i] in multiset(t);
      }
      if t[i] != r {
        var k :| 0 <= k < |s| && s[k] == t[i];
      }
    }
  }

  lemma {:induction false} InsertPermutes(r: Rule, s: seq<Rule>)
    ensures multiset(InsertByConfidence(r, s)) == multiset(s) + multiset{r}
  {
    if s != [] && r.confidence < s[0].confidence {
      InsertPermutes(r, s[1..]);
      assert s == [s[0]] + s[1..];
    }
  }

  /** `rules.sort(key=confidence, reverse=True)`: Python's sort is stable, also in reverse. */
  function SortByConfidence(rs: seq<Rule>): (s: seq<Rule>)
    ensures SortedByConfidence(s)
    ensures multiset(s) == multiset(rs)
    ensures |s| == |rs|
  {
    if rs == [] then [] else
      assert rs == [rs[0]] + rs[1..];
      InsertIntoSorted(rs[0], SortByConfidence(rs[1..]));
      InsertByConfidence(rs[0], SortByConfidence(rs[1..]))
  }

  /** The rules of one confidence, in order: the reference for stability. */
  function WithConfidence(rs: seq<Rule>, c: real): seq<Rule> {
    if rs == [] then [] else (if rs[0].confidence == c then [rs[0]] else []) + WithConfidence(rs[1..], c)
  }

  /** Sorting is stable: rules of equal confidence keep their relative order. */
  lemma {:induction false} SortIsStable(rs: seq<Rule>, c: real)
    ensures WithConfidence(SortByConfidence(rs), c) == WithConfidence(rs, c)
  {
    if rs != [] {
      SortIsStable(rs[1..], c);
      InsertKeepsOrder(rs[0], SortByConfidence(rs[1..]), c);
    }
  }

  lemma {:induction false} InsertKeepsOrder(r: Rule, s: seq<Rule>, c: real)
    ensures WithConfidence(InsertByConfidence(r, s), c) == (if r.confidence == c then [r] else []) + WithConfidence(s, c)
  {
    if s == [] || r.confidence >= s[0].confidence {
      assert ([r] + s)[1..] == s;
    } else {
      var rest := InsertByConfidence(r, s[1..]);
      InsertKeepsOrder(r, s[1..], c);
      var head := if s[0].confidence == c then [s[0]] else [];
      var mine := if r.confidence == c then [r] else [];
      assert ([s[0]] + rest)[1..] == rest;
      assert head == [] || mine == [];
      calc {
        WithConfidence(InsertByConfidence(r, s), c);
        WithConfidence([s[0]] + rest, c);
        head + WithConfidence(rest, c);
        head + (mine + WithConfidence(s[1..], c));
        { assert head + mine == mine + head; }
        mine + (head + WithConfidence(s[1..], c));
        mine + WithConfidence(s, c);
      }
    }
  }

  /**
    `fit`: unequal message and type lists raise and leave the classifier
    unchanged; otherwise the new rules are appended to the existing ones and
    the whole list is re-sorted.
  */
  function Fit(c: RuleClassifier, o: TextOracle, data: TrainingData): (r: Result<RuleClassifier, Failure>)
    ensures r.Err? <==> |data.errorMessages| != |data.errorTypes|
    ensures r.Err? ==> r.error == LengthMismatch
    ensures r.Ok? ==> r.value.isFitted && r.value.name == c.name && r.value.library == c.library
    ensures r.Ok? ==> SortedByConfidence(r.value.rules)
    ensures r.Ok? ==> multiset(r.value.rules) == multiset(c.rules + GroupRules(o, c.library, Grouping.GroupBy(Pairs(data))))
  {
    if |data.errorMessages| != |data.errorTypes| then Err(LengthMismatch)
    else
      var added := GroupRules(o, c.library, Grouping.GroupBy(Pairs(data)));
      Ok(RuleClassifier(c.name, c.library, SortByConfidence(c.rules + added), true))
  }

  /**
    `fit` keeps ties in order: among rules of one confidence, the rules held
    before come first, then the new rules in the order the groups produced them.
  */
  lemma FitStable(c: RuleClassifier, o: TextOracle, data: TrainingData, conf: real)
    ensures Fit(c, o, data).Ok? ==>
      WithConfidence(Fit(c, o, data).value.rules, conf)
        == WithConfidence(c.rules, conf) + WithConfidence(GroupRules(o, c.library, Grouping.GroupBy(Pairs(data))), conf)
  {
    if |data.errorMessages| == |data.errorTypes| {
      var added := GroupRules(o, c.library, Grouping.GroupBy(Pairs(data)));
      SortIsStable(c.rules + added, conf);
      WithConfidenceAppend(c.rules, added, conf);
    }
  }

  lemma {:induction false} WithConfidenceAppend(xs: seq<Rule>, ys: seq<Rule>, c: real)
    ensures WithConfidence(xs + ys, c) == WithConfidence(xs, c) + WithConfidence(ys, c)
  {
    if xs != [] {
      assert (xs + ys)[0] == xs[0];
      assert (xs + ys)[1..] == xs[1..] + ys;
      WithConfidenceAppend(xs[1..], ys, c);
    } else {
      assert xs + ys == ys;
    }
  }

  lemma RatioBounds(count: nat, total: nat)
    requires 0 < total && count <= total && ClearsThreshold(count, total)
    ensures 3.0 / 10.0 <= count as real / total as real <= 1.0
  {
    Ratios.AtLeastThreeTenths(count, total);
    Ratios.FractionBounds(count, total);
  }

  /**
    Every rule built from the training data is a library pattern that matches
    at least 30% of its type's training messages, with the match fraction (in
    [0.3, 1]) as confidence.
  */
  lemma NewRulesSound(o: TextOracle, library: seq<string>, data: TrainingData, rule: Rule)
    requires |data.errorMessages| == |data.errorTypes|
    requires rule in GroupRules(o, library, Grouping.GroupBy(Pairs(data)))
    ensures rule.pattern in library
    ensures rule.errorType in data.errorTypes
    ensures ClearsThreshold(CountMatches(o, rule.pattern, TypeMessages(data, rule.errorType)), |TypeMessages(data, rule.errorType)|)
    ensures rule.confidence == PatternConfidence(o, rule.pattern, TypeMessages(data, rule.errorType))
    ensures 3.0 / 10.0 <= rule.confidence <= 1.0
  {
    var groups := Grouping.GroupBy(Pairs(data));
    var i :| 0 <= i < |groups| && rule in RulesForType(o, library, groups[i].0, groups[i].1);
    GroupType(data, i);
    var j := TrainedGroup(data, rule.errorType);
    var ms := TypeMessages(data, rule.errorType);
    RatioBounds(CountMatches(o, rule.pattern, ms), |ms|);
  }

  /** Conversely, every library pattern clearing the threshold for a trained type becomes a rule. */
  lemma NewRulesComplete(o: TextOracle, library: seq<string>, data: TrainingData, t: ErrorTypeId, p: string)
    requires |data.errorMessages| == |data.errorTypes|
    requires t in data.errorTypes && p in library
    requires ClearsThreshold(CountMatches(o, p, TypeMessages(data, t)), |TypeMessages(data, t)|)
    ensures MakeRule(o, t, p, TypeMessages(data, t))
      in GroupRules(o, library, Grouping.GroupBy(Pairs(data)))
  {
    var groups := Grouping.GroupBy(Pairs(data));
    var i := TrainedGroup(data, t);
    assert MakeRule(o, t, p, TypeMessages(data, t)) in RulesForType(o, library, groups[i].0, groups[i].1);
  }

  /**
    After `fit`, every rule is an earlier rule or a library pattern clearing
    the 30% threshold for its type, at the match fraction as confidence.
  */
  lemma FitRulesSound(c: RuleClassifier, o: TextOracle, data: TrainingData, rule: Rule)
    requires Fit(c, o, data).Ok?
    requires rule in Fit(c, o, data).value.rules
    ensures rule in c.rules || (
      && rule.pattern in c.library
      && rule.errorType in data.errorTypes
      && ClearsThreshold(CountMatches(o, rule.pattern, TypeMessages(data, rule.errorType)), |TypeMessages(data, rule.errorType)|)
      && rule.confidence == PatternConfidence(o, rule.pattern, TypeMessages(data, rule.errorType))
      && 3.0 / 10.0 <= rule.confidence <= 1.0)
  {
    var added := GroupRules(o, c.library, Grouping.GroupBy(Pairs(data)));
    assert rule in multiset(c.rules + added);
    if rule !in c.rules {
      assert rule in added;
      NewRulesSound(o, c.library, data, rule);
    }
  }

  lemma FitKeepsRules(c: RuleClassifier, o: TextOracle, data: TrainingData, x: Rule)
    requires |data.errorMessages| == |data.errorTypes|
    requires x in c.rules + GroupRules(o, c.library, Grouping.GroupBy(Pairs(data)))
    ensures x in Fit(c, o, data).value.rules
  {
    var all := c.rules + GroupRules(o, c.library, Grouping.GroupBy(Pairs(data)));
    assert x in multiset(all);
    assert multiset(Fit(c, o, data).value.rules) == multiset(all);
    assert x in multiset(Fit(c, o, data).value.rules);
  }

  /** After `fit`, every library pattern clearing the threshold for a trained type is a rule. */
  lemma FitRulesComplete(c: RuleClassifier, o: TextOracle, data: TrainingData, t: ErrorTypeId, p: string)
    requires |data.errorMessages| == |data.errorTypes|
    requires t in data.errorTypes && p in c.library
    requires ClearsThreshold(CountMatches(o, p, TypeMessages(data, t)), |TypeMessages(data, t)|)
    ensures MakeRule(o, t, p, TypeMessages(data, t))
      in Fit(c, o, data).value.rules
  {
    var added := GroupRules(o, c.library, Grouping.GroupBy(Pairs(data)));
    var x := MakeRule(o, t, p, TypeMessages(data, t));
    NewRulesComplete(o, c.library, data, t, p);
    assert x in c.rules + added;
    FitKeepsRules(c, o, data, x);
  }

  // ---------------------------------------------------------------------------
  // Prediction
  // ---------------------------------------------------------------------------

  /** The running state of `predict`'s loop over the rules. */
  datatype Scan = Scan(best: Option<ErrorTypeId>, confidence: real, patterns: seq<string>, path: seq<string>)

  /** One iteration: a more confident match replaces the best, an equally confident one is appended. */
  function ScanStep(o: TextOracle, message: string, s: Scan, rule: Rule): Scan {
    if !o.search(rule.pattern, message) then s
    else if rule.confidence > s.confidence then
      Scan(Some(rule.errorType), rule.confidence, [rule.pattern], ["matched_pattern:" + rule.pattern])
    else if rule.confidence == s.confidence then
      Scan(s.best, s.confidence, s.patterns + [rule.pattern], s.path + ["matched_pattern:" + rule.pattern])
    else s
  }

  function ScanRules(o: TextOracle, message: string, rules: seq<Rule>): Scan {
    if rules == [] then Scan(None, 0.0, [], []) else
      var n := |rules| - 1;
      ScanStep(o, message, ScanRules(o, message, rules[..n]), rules[n])
  }

  /** Index of the first rule whose pattern matches. */
  function FirstMatching(o: TextOracle, message: string, rules: seq<Rule>): (r: Option<nat>)
    ensures r.Some? ==> r.value < |rules| && o.search(rules[r.value].pattern, message)
    ensures r.Some? ==> forall j | 0 <= j < r.value :: !o.search(rules[j].pattern, message)
    ensures r.None? <==> forall j | 0 <= j < |rules| :: !o.search(rules[j].pattern, message)
  {
    if rules == [] then None else
      var n := |rules| - 1;
      assert forall j | 0 <= j < n :: rules[..n][j] == rules[j];
      match FirstMatching(o, message, rules[..n])
      case Some(i) => Some(i)
      case None => if o.search(rules[n].pattern, message) then Some(n) else None
  }

  /** The patterns of the matching rules of confidence `c`, in order. */
  function MatchingWithConfidence(o: TextOracle, message: string, rules: seq<Rule>, c: real): seq<string> {
    if rules == [] then [] else
      var n := |rules| - 1;
      MatchingWithConfidence(o, message, rules[..n], c)
        + (if o.search(rules[n].pattern, message) && rules[n].confidence == c then [rules[n].pattern] else [])
  }

  lemma {:induction false} NoMatchingWithConfidence(o: TextOracle, message: string, rules: seq<Rule>, c: real)
    requires forall j | 0 <= j < |rules| :: !o.search(rules[j].pattern, message)
    ensures MatchingWithConfidence(o, message, rules, c) == []
  {
    if rules != [] {
      var n := |rules| - 1;
      assert forall j | 0 <= j < n :: rules[..n][j] == rules[j];
      NoMatchingWithConfidence(o, message, rules[..n], c);
    }
  }

  /**
    Over rules sorted by confidence with positive confidences, the scan's
    winner is the first matching rule, and the evidence lists hold exactly
    the matching rules of that same confidence, in order.
  */
  lemma FirstMatchWins(o: TextOracle, message: string, rules: seq<Rule>)
    requires SortedByConfidence(rules)
    requires forall j | 0 <= j < |rules| :: rules[j].confidence > 0.0
    ensures FirstMatching(o, message, rules).None? ==> ScanRules(o, message, rules) == Scan(None, 0.0, [], [])
    ensures FirstMatching(o, message, rules).Some? ==> (
      var i := FirstMatching(o, message, rules).value;
      var s := ScanRules(o, message, rules);
      && s.best == Some(rules[i].errorType)
      && s.confidence == rules[i].confidence
      && s.patterns == MatchingWithConfidence(o, message, rules, rules[i].confidence)
      && s.path == Prefixed("matched_pattern:", s.patterns))
  {
    if FirstMatching(o, message, rules).None? {
      NoMatchScan(o, message, rules);
    } else {
      FirstMatchScan(o, message, rules);
    }
    ScanPath(o, message, rules);
  }

  /** When no pattern matches, the scan keeps its initial state. */
  lemma {:induction false} NoMatchScan(o: TextOracle, message: string, rules: seq<Rule>)
    requires forall j | 0 <= j < |rules| :: !o.search(rules[j].pattern, message)
    ensures ScanRules(o, message, rules) == Scan(None, 0.0, [], [])
  {
    if rules != [] {
      var n := |rules| - 1;
      assert forall j | 0 <= j < n :: rules[..n][j] == rules[j];
      NoMatchScan(o, message, rules[..n]);
    }
  }

  lemma {:induction false} FirstMatchScan(o: TextOracle, message: string, rules: seq<Rule>)
    requires SortedByConfidence(rules)
    requires forall j | 0 <= j < |rules| :: rules[j].confidence > 0.0
    requires FirstMatching(o, message, rules).Some?
    ensures var i := FirstMatching(o, message, rules).value;
      var s := ScanRules(o, message, rules);
      && s.best == Some(rules[i].errorType)
      && s.confidence == rules[i].confidence
      && s.patterns == MatchingWithConfidence(o, message, rules, rules[i].confidence)
  {
    var n := |rules| - 1;
    var prefix := rules[..n];
    assert forall j | 0 <= j < n :: prefix[j] == rules[j];
    var s := ScanRules(o, message, prefix);
    assert ScanRules(o, message, rules) == ScanStep(o, message, s, rules[n]);
    match FirstMatching(o, message, prefix)
    case None =>
      NoMatchScan(o, message, prefix);
      NoMatchingWithConfidence(o, message, prefix, rules[n].confidence);
    case Some(i) =>
      FirstMatchScan(o, message, prefix);
      assert FirstMatching(o, message, rules) == Some(i);
      assert rules[i].confidence >= rules[n].confidence;
  }

  /** Every pattern the scan keeps is recorded on the path, in order. */
  lemma {:induction false} ScanPath(o: TextOracle, message: string, rules: seq<Rule>)
    ensures ScanRules(o, message, rules).path == Prefixed("matched_pattern:", ScanRules(o, message, rules).patterns)
  {
    if rules != [] {
      var n := |rules| - 1;
      ScanPath(o, message, rules[..n]);
      var s := ScanRules(o, message, rules[..n]);
      var rule := rules[n];
      if o.search(rule.pattern, message) && rule.confidence == s.confidence {
        assert Prefixed("matched_pattern:", s.patterns + [rule.pattern])
            == Prefixed("matched_pattern:", s.patterns) + ["matched_pattern:" + rule.pattern];
      } else if o.search(rule.pattern, message) && rule.confidence > s.confidence {
        assert Prefixed("matched_pattern:", [rule.pattern]) == ["matched_pattern:" + rule.pattern];
      }
    }
  }

  /** The prediction of a fitted classifier. */
  /** The type a fitted classifier predicts: the best rule's type, else the keyword table's, else UNKNOWN_ERROR. */
  function PredictedType(c: RuleClassifier, o: TextOracle, message: string): ErrorTypeId {
    var s := ScanRules(o, message, c.rules);
    var k := if s.best.Some? then KeywordMatch(s.best, s.confidence, s.patterns, s.path)
             else KeywordClassification(o, message);
    k.errorType.GetOr(UnknownError)
  }

  function Classify(c: RuleClassifier, o: TextOracle, message: string): (r: ClassificationResult)
    ensures r.errorType == PredictedType(c, o, message)
  {
    var s := ScanRules(o, message, c.rules);
    var k := if s.best.Some? then KeywordMatch(s.best, s.confidence, s.patterns, s.path)
             else KeywordClassification(o, message);
    var metadata := if k.errorType.Some? then GetErrorMetadata(k.errorType.value) else None;
    ClassificationResult(
      k.errorType.GetOr(UnknownError), k.confidence, metadata, k.path, k.patterns,
      SuggestedActions(metadata, RuleHintCategories))
  }

  /** `predict`: fails before `fit`. */
  function Predict(c: RuleClassifier, o: TextOracle, message: string): (r: Result<ClassificationResult, Failure>)
    ensures r.Err? <==> !c.isFitted
    ensures r.Err? ==> r.error == NotFitted
    ensures r.Ok? ==> r.value.suggestedActions == SuggestedActions(r.value.metadata, RuleHintCategories)
  {
    if !c.isFitted then Err(NotFitted) else Ok(Classify(c, o, message))
  }

  /** The invariant `fit` establishes: sorted rules with confidences in [0.3, 1]. */
  ghost predicate WellFormed(c: RuleClassifier) {
    && SortedByConfidence(c.rules)
    && forall j | 0 <= j < |c.rules| :: 3.0 / 10.0 <= c.rules[j].confidence <= 1.0
  }

  lemma FitWellFormed(c: RuleClassifier, o: TextOracle, data: TrainingData)
    requires WellFormed(c) && Fit(c, o, data).Ok?
    ensures WellFormed(Fit(c, o, data).value)
  {
    var rs := Fit(c, o, data).value.rules;
    forall j | 0 <= j < |rs| ensures 3.0 / 10.0 <= rs[j].confidence <= 1.0 {
      assert rs[j] in rs;
      FitRulesSound(c, o, data, rs[j]);
      if rs[j] in c.rules {
        var k :| 0 <= k < |c.rules| && c.rules[k] == rs[j];
      }
    }
  }

  /**
    A well-formed classifier predicts the first matching rule's type and
    confidence; with no matching rule, the first keyword of the ordered table
    found in the lowercased message at 0.5; with neither, UNKNOWN_ERROR at 0.0
    with empty evidence, no metadata and the two default actions.
  */
  lemma PredictOutcome(c: RuleClassifier, o: TextOracle, message: string)
    requires c.isFitted && WellFormed(c)
    ensures var r := Predict(c, o, message).value;
      && (FirstMatching(o, message, c.rules).Some? ==> (
        var i := FirstMatching(o, message, c.rules).value;
        && r.errorType == c.rules[i].errorType
        && r.confidence == c.rules[i].confidence
        && r.matchedPatterns == MatchingWithConfidence(o, message, c.rules, c.rules[i].confidence)
        && r.metadata == GetErrorMetadata(c.rules[i].errorType)))
      && (FirstMatching(o, message, c.rules).None? && KeywordClassification(o, message).errorType.Some? ==> (
        && r.errorType == KeywordClassification(o, message).errorType.value
        && r.confidence == 0.5
        && r.matchedPatterns == KeywordClassification(o, message).patterns
        && r.metadata == GetErrorMetadata(r.errorType)))
      && (FirstMatching(o, message, c.rules).None? && KeywordClassification(o, message).errorType.None? ==>
        r == ClassificationResult(UnknownError, 0.0, None, [], [], [InvestigateErrorDetails, CheckLogs]))
  {
    FirstMatchWins(o, message, c.rules);
  }

  // ---------------------------------------------------------------------------
  // Probabilities and score
  // ---------------------------------------------------------------------------

  /** One iteration of `predict_proba`'s loop: a matching rule raises its type's entry to its confidence. */
  function ProbaStep(o: TextOracle, message: string, probs: map<ErrorTypeId, real>, rule: Rule): map<ErrorTypeId, real> {
    if o.search(rule.pattern, message) && (rule.errorType !in probs || rule.confidence > probs[rule.errorType])
    then probs[rule.errorType := rule.confidence]
    else probs
  }

  function ProbaScan(o: TextOracle, message: string, probs: map<ErrorTypeId, real>, rules: seq<Rule>): map<ErrorTypeId, real> {
    if rules == [] then probs else
      var n := |rules| - 1;
      ProbaStep(o, message, ProbaScan(o, message, probs, rules[..n]), rules[n])
  }

  /** The types of the matching rules. */
  function MatchingTypes(o: TextOracle, message: string, rules: seq<Rule>): set<ErrorTypeId> {
    set j | 0 <= j < |rules| && o.search(rules[j].pattern, message) :: rules[j].errorType
  }

  /** The scan adds exactly the matching rules' types to the keys. */
  lemma {:induction false} ProbaScanKeys(o: TextOracle, message: string, probs: map<ErrorTypeId, real>, rules: seq<Rule>)
    ensures ProbaScan(o, message, probs, rules).Keys == probs.Keys + MatchingTypes(o, message, rules)
  {
    if rules != [] {
      var n := |rules| - 1;
      var prefix := rules[..n];
      assert forall j | 0 <= j < n :: prefix[j] == rules[j];
      ProbaScanKeys(o, message, probs, prefix);
      assert MatchingTypes(o, message, rules) == MatchingTypes(o, message, prefix)
        + (if o.search(rules[n].pattern, message) then {rules[n].errorType} else {});
    }
  }

  /** Each entry is at least its initial value and every matching rule's confidence for that type. */
  lemma {:induction false} ProbaScanBounds(o: TextOracle, message: string, probs: map<ErrorTypeId, real>, rules: seq<Rule>)
    ensures forall t | t in probs :: t in ProbaScan(o, message, probs, rules) && ProbaScan(o, message, probs, rules)[t] >= probs[t]
    ensures forall j | 0 <= j < |rules| && o.search(rules[j].pattern, message) ::
      && rules[j].errorType in ProbaScan(o, message, probs, rules)
      && ProbaScan(o, message, probs, rules)[rules[j].errorType] >= rules[j].confidence
  {
    if rules != [] {
      var n := |rules| - 1;
      var prefix := rules[..n];
      assert forall j | 0 <= j < n :: prefix[j] == rules[j];
      ProbaScanBounds(o, message, probs, prefix);
    }
  }

  /** Each entry is attained: it is the initial value or some matching rule's confidence for that type. */
  lemma {:induction false} ProbaScanAttained(o: TextOracle, message: string, probs: map<ErrorTypeId, real>, rules: seq<Rule>)
    ensures forall t | t in ProbaScan(o, message, probs, rules) ::
      || (t in probs && ProbaScan(o, message, probs, rules)[t] == probs[t])
      || exists j | 0 <= j < |rules| :: (
        && o.search(rules[j].pattern, message) && rules[j].errorType == t
        && ProbaScan(o, message, probs, rules)[t] == rules[j].confidence)
  {
    if rules != [] {
      var n := |rules| - 1;
      var prefix := rules[..n];
      assert forall j | 0 <= j < n :: prefix[j] == rules[j];
      ProbaScanAttained(o, message, probs, prefix);
    }
  }

  /**
    `predict_proba`: fails before `fit`; otherwise the predicted type at its
    confidence, raised to the best confidence of any matching rule, plus every
    other matching rule's type at its best confidence.
  */
  function PredictProba(c: RuleClassifier, o: TextOracle, message: string): (r: Result<map<ErrorTypeId, real>, Failure>)
    ensures r.Err? <==> !c.isFitted
    ensures r.Ok? ==> r.value.Keys == {Classify(c, o, message).errorType} + MatchingTypes(o, message, c.rules)
    ensures r.Ok? ==> r.value[Classify(c, o, message).errorType] >= Classify(c, o, message).confidence
    ensures r.Ok? ==> forall j | 0 <= j < |c.rules| && o.search(c.rules[j].pattern, message) ::
      r.value[c.rules[j].errorType] >= c.rules[j].confidence
    ensures r.Ok? ==> forall t | t in r.value ::
      || (t == Classify(c, o, message).errorType && r.value[t] == Classify(c, o, message).confidence)
      || exists j | 0 <= j < |c.rules| :: (
        && o.search(c.rules[j].pattern, message) && c.rules[j].errorType == t
        && r.value[t] == c.rules[j].confidence)
  {
    match Predict(c, o, message)
    case Err(e) => Err(e)
    case Ok(res) =>
      ProbaScanFrom(o, message, res.errorType, res.confidence, c.rules);
      Ok(ProbaScan(o, message, map[res.errorType := res.confidence], c.rules))
  }

  /** The scan started from the prediction alone, as `predict_proba` starts it. */
  lemma ProbaScanFrom(o: TextOracle, message: string, t0: ErrorTypeId, c0: real, rules: seq<Rule>)
    ensures var probs := ProbaScan(o, message, map[t0 := c0], rules);
      && probs.Keys == {t0} + MatchingTypes(o, message, rules)
      && probs[t0] >= c0
      && (forall j | 0 <= j < |rules| && o.search(rules[j].pattern, message) ::
            probs[rules[j].errorType] >= rules[j].confidence)
      && (forall t | t in probs ::
            || (t == t0 && probs[t] == c0)
            || exists j | 0 <= j < |rules| :: (
              && o.search(rules[j].pattern, message) && rules[j].errorType == t
              && probs[t] == rules[j].confidence))
  {
    var init := map[t0 := c0];
    ProbaScanKeys(o, message, init, rules);
    ProbaScanBounds(o, message, init, rules);
    ProbaScanAttained(o, message, init, rules);
  }

  /** A well-formed classifier's prediction and every probability it reports lie in [0, 1]. */
  lemma ConfidenceBounds(c: RuleClassifier, o: TextOracle, message: string)
    requires c.isFitted && WellFormed(c)
    ensures 0.0 <= Predict(c, o, message).value.confidence <= 1.0
    ensures forall t | t in PredictProba(c, o, message).value :: 0.0 <= PredictProba(c, o, message).value[t] <= 1.0
  {
    PredictOutcome(c, o, message);
  }

  /** `score`: accuracy of `predict` over the test data. */
  function Score(c: RuleClassifier, o: TextOracle, data: TrainingData): (r: Result<real, Failure>)
    ensures !c.isFitted ==> r == Err(NotFitted)
    ensures c.isFitted && |data.errorMessages| != |data.errorTypes| ==> r == Err(LengthMismatch)
    ensures c.isFitted && |data.errorMessages| == |data.errorTypes| && data.errorMessages == [] ==> r == Ok(0.0)
    ensures c.isFitted && |data.errorMessages| == |data.errorTypes| && data.errorMessages != [] ==>
      r == Ok(|set i: nat | i < |data.errorTypes| && PredictedType(c, o, data.errorMessages[i]) == data.errorTypes[i]| as real
        / |data.errorMessages| as real)
  {
    var predicted := seq(|data.errorMessages|, i requires 0 <= i < |data.errorMessages| =>
      PredictedType(c, o, data.errorMessages[i]));
    assert |data.errorMessages| == |data.errorTypes| ==>
      (set i: nat | i < |data.errorTypes| && predicted[i] == data.errorTypes[i])
        == (set i: nat | i < |data.errorTypes| && PredictedType(c, o, data.errorMessages[i]) == data.errorTypes[i]);
    Classification.Score(c.isFitted, predicted, data)
  }
}
