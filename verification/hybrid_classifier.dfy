/**
  `HybridClassifier`, `ClassifierFactory` and `create_error_classification`:
  the hybrid runs the rule-based and the pattern-based classifier on the same
  message and merges their answers, weighting the rule side 0.4 and the
  pattern side 0.6.
*/
module Hybrid {
  import opened Outcomes
  import opened ErrorTypes
  import opened Classification
  import RuleBased
  import PatternBased

  datatype HybridClassifier = HybridClassifier(
    name: string,
    rule: RuleBased.RuleClassifier,
    pattern: PatternBased.PatternClassifier,
    isFitted: bool)

  const RuleWeight: real := 0.4
  const PatternWeight: real := 0.6

  /** A fresh hybrid owns fresh sub-classifiers named after it. */
  function NewClassifier(name: string): (h: HybridClassifier)
    ensures !h.isFitted && !h.rule.isFitted && !h.pattern.isFitted
    ensures h.rule.name == name + "_rule" && h.pattern.name == name + "_pattern"
    ensures h.rule.rules == [] && h.pattern.patterns == []
  {
    HybridClassifier(name, RuleBased.NewClassifier(name + "_rule"), PatternBased.NewClassifier(name + "_pattern"), false)
  }

  /**
    `fit`: the rule classifier is fitted first; unequal message and type lists
    make it raise, leaving everything unchanged.
  */
  function Fit(h: HybridClassifier, o: TextOracle, data: TrainingData): (r: Result<HybridClassifier, Failure>)
    ensures r.Err? <==> |data.errorMessages| != |data.errorTypes|
    ensures r.Err? ==> r.error == LengthMismatch
    ensures r.Ok? ==> r.value.isFitted && r.value.rule.isFitted && r.value.pattern.isFitted && r.value.name == h.name
  {
    match RuleBased.Fit(h.rule, o, data)
    case Err(e) => Err(e)
    case Ok(rule) =>
      match PatternBased.Fit(h.pattern, o, data)
      case Err(e) => Err(e)
      case Ok(pattern) => Ok(HybridClassifier(h.name, rule, pattern, true))
  }

  /** Both halves are fitted from the same data: the hybrid's state is theirs. */
  lemma FitFitsBoth(h: HybridClassifier, o: TextOracle, data: TrainingData)
    requires Fit(h, o, data).Ok?
    ensures Fit(h, o, data).value.rule == RuleBased.Fit(h.rule, o, data).value
    ensures Fit(h, o, data).value.pattern == PatternBased.Fit(h.pattern, o, data).value
  {
  }

  /** The invariant both halves keep. */
  ghost predicate WellFormed(h: HybridClassifier) {
    RuleBased.WellFormed(h.rule) && PatternBased.WellFormed(h.pattern)
  }

  lemma FitWellFormed(h: HybridClassifier, o: TextOracle, data: TrainingData)
    requires WellFormed(h) && Fit(h, o, data).Ok?
    ensures WellFormed(Fit(h, o, data).value)
  {
    RuleBased.FitWellFormed(h.rule, o, data);
    PatternBased.FitWellFormed(h.pattern, o, data);
  }

  /** The weighted combination of a rule-side and a pattern-side confidence. */
  function Blend(ruleConfidence: real, patternConfidence: real): real {
    ruleConfidence * RuleWeight + patternConfidence * PatternWeight
  }

  /** The weights sum to one, so a blend lies between its two inputs. */
  lemma BlendBetween(a: real, b: real)
    ensures (if a <= b then a else b) <= Blend(a, b) <= (if a <= b then b else a)
    ensures a == b ==> Blend(a, b) == a
  {
  }

  /**
    `predict`'s merge: the rule result is the base only when it is strictly
    more confident; the base takes the blended confidence, the pattern
    result's metadata when that is non-empty, and the pattern result's
    lists appended to its own.
  */
  function Combine(ruleResult: ClassificationResult, patternResult: ClassificationResult): (r: ClassificationResult)
    ensures r.confidence == RuleWeight * ruleResult.confidence + PatternWeight * patternResult.confidence
    ensures r.errorType == (if ruleResult.confidence > patternResult.confidence then ruleResult.errorType else patternResult.errorType)
    ensures r.metadata == (if patternResult.metadata.Some? then patternResult.metadata
                           else if ruleResult.confidence > patternResult.confidence then ruleResult.metadata
                           else None)
    ensures ruleResult.confidence > patternResult.confidence ==>
      && r.classificationPath == ruleResult.classificationPath + patternResult.classificationPath
      && r.matchedPatterns == ruleResult.matchedPatterns + patternResult.matchedPatterns
      && r.suggestedActions == ruleResult.suggestedActions + patternResult.suggestedActions
    ensures ruleResult.confidence <= patternResult.confidence ==>
      && r.classificationPath == patternResult.classificationPath + patternResult.classificationPath
      && r.matchedPatterns == patternResult.matchedPatterns + patternResult.matchedPatterns
      && r.suggestedActions == patternResult.suggestedActions + patternResult.suggestedActions
  {
    var base := if ruleResult.confidence > patternResult.confidence then ruleResult else patternResult;
    ClassificationResult(
      base.errorType,
      Blend(ruleResult.confidence, patternResult.confidence),
      if patternResult.metadata.Some? then patternResult.metadata else base.metadata,
      base.classificationPath + patternResult.classificationPath,
      base.matchedPatterns + patternResult.matchedPatterns,
      base.suggestedActions + patternResult.suggestedActions)
  }

  /** The merged confidence lies between the two sides' confidences. */
  lemma CombineConfidence(ruleResult: ClassificationResult, patternResult: ClassificationResult)
    ensures var c := Combine(ruleResult, patternResult).confidence;
      && (ruleResult.confidence <= patternResult.confidence ==> ruleResult.confidence <= c <= patternResult.confidence)
      && (patternResult.confidence <= ruleResult.confidence ==> patternResult.confidence <= c <= ruleResult.confidence)
  {
    BlendBetween(ruleResult.confidence, patternResult.confidence);
  }

  // ---------------------------------------------------------------------------
  // The merge's write-through into the registry
  // ---------------------------------------------------------------------------

  /**
    The merge overwrites a stored record when the rule side is the base and
    both sides carry metadata: the rule side's metadata is then the
    attribute dictionary of the registry's own record for its type.
  */
  predicate WritesThrough(ruleResult: ClassificationResult, patternResult: ClassificationResult, reg: Registry) {
    && ruleResult.confidence > patternResult.confidence
    && ruleResult.metadata.Some?
    && patternResult.metadata.Some?
    && ruleResult.errorType in reg.metadata
  }

  /**
    `predict`'s merge as written, with the registry it mutates: `update` on
    the rule side's metadata copies the pattern side's fields into the stored
    record of the rule's type, and the category, severity and retryability
    indexes keep their old contents.
  */
  function CombineAsWritten(ruleResult: ClassificationResult, patternResult: ClassificationResult, reg: Registry)
    : (out: (ClassificationResult, Registry))
    ensures out.0 == Combine(ruleResult, patternResult)
    ensures WritesThrough(ruleResult, patternResult, reg) ==>
      GetMetadata(out.1, ruleResult.errorType) == patternResult.metadata
    ensures !WritesThrough(ruleResult, patternResult, reg) ==>
      GetMetadata(out.1, ruleResult.errorType) == GetMetadata(reg, ruleResult.errorType)
    ensures forall id | id != ruleResult.errorType :: GetMetadata(out.1, id) == GetMetadata(reg, id)
    ensures out.1.retryableErrors == reg.retryableErrors && out.1.nonRetryableErrors == reg.nonRetryableErrors
    ensures out.1.categoryMappings == reg.categoryMappings && out.1.severityMappings == reg.severityMappings
  {
    var merged := Combine(ruleResult, patternResult);
    if WritesThrough(ruleResult, patternResult, reg) then
      (merged, reg.(metadata := reg.metadata[ruleResult.errorType := patternResult.metadata.value]))
    else
      (merged, reg)
  }

  /**
    When the two records disagree on retryability, the write-through leaves
    the registry inconsistent: the retryability index still files the rule's
    type under its old answer.
  */
  lemma WriteThroughBreaksConsistency(ruleResult: ClassificationResult, patternResult: ClassificationResult, reg: Registry)
    requires Consistent(reg)
    requires WritesThrough(ruleResult, patternResult, reg)
    requires reg.metadata[ruleResult.errorType].isRetryable != patternResult.metadata.value.isRetryable
    ensures !Consistent(CombineAsWritten(ruleResult, patternResult, reg).1)
  {
    var t := ruleResult.errorType;
    var reg' := CombineAsWritten(ruleResult, patternResult, reg).1;
    assert GetMetadata(reg', t) == patternResult.metadata;
    if reg.metadata[t].isRetryable {
      assert t in reg'.retryableErrors && !reg'.metadata[t].isRetryable;
    } else {
      assert t !in reg.retryableErrors;
      assert t in reg'.nonRetryableErrors && reg'.metadata[t].isRetryable;
    }
  }

  /**
    The rule side answers TIMEOUT_ERROR at 0.5 (the keyword table's answer
    for a message containing "timeout") and the pattern side, knowing no
    pattern for it, UNKNOWN_ERROR at 0.0. After the merge the global registry
    still lists timeout_error as retryable while its stored record now says
    it is not.
  */
  lemma TimeoutMergeBreaksRegistry()
    ensures var ruleResult := ClassificationResult("timeout_error", 0.5, GetErrorMetadata("timeout_error"), [], [], []);
      var patternResult := ClassificationResult("unknown_error", 0.0, GetErrorMetadata("unknown_error"), [], [], []);
      var reg := CombineAsWritten(ruleResult, patternResult, GlobalRegistry()).1;
      && "timeout_error" in reg.retryableErrors
      && !GetMetadata(reg, "timeout_error").value.isRetryable
      && !Consistent(reg)
  {
    var ruleResult := ClassificationResult("timeout_error", 0.5, GetErrorMetadata("timeout_error"), [], [], []);
    var patternResult := ClassificationResult("unknown_error", 0.0, GetErrorMetadata("unknown_error"), [], [], []);
    GlobalRegistryConsistent();
    assert InitialPolicy("timeout_error") == Some(Policy(Medium, Network, true, 2.0, 3));
    UnknownErrorPolicy();
    GlobalLookup("timeout_error");
    GlobalLookup("unknown_error");
    assert WritesThrough(ruleResult, patternResult, GlobalRegistry());
    WriteThroughBreaksConsistency(ruleResult, patternResult, GlobalRegistry());
  }

  /**
    The merge with the pattern side's metadata copied into the result rather
    than written through: the same merged result, and every stored record,
    hence every consistent registry, left as it was. `Combine` and `Predict`
    follow this reading.
  */
  function CombineCopying(ruleResult: ClassificationResult, patternResult: ClassificationResult, reg: Registry)
    : (out: (ClassificationResult, Registry))
    ensures out.0 == CombineAsWritten(ruleResult, patternResult, reg).0
    ensures forall id :: GetMetadata(out.1, id) == GetMetadata(reg, id)
    ensures GetAllErrorTypes(out.1) == GetAllErrorTypes(reg)
    ensures Consistent(reg) ==> Consistent(out.1)
  {
    (Combine(ruleResult, patternResult), reg)
  }

  /** `predict`: the hybrid, and each half in turn, fails before `fit`. */
  function Predict(h: HybridClassifier, o: TextOracle, message: string): (r: Result<ClassificationResult, Failure>)
    ensures r.Err? <==> !h.isFitted || !h.rule.isFitted || !h.pattern.isFitted
    ensures r.Err? ==> r.error == NotFitted
  {
    if !h.isFitted then Err(NotFitted) else
      match RuleBased.Predict(h.rule, o, message)
      case Err(e) => Err(e)
      case Ok(ruleResult) =>
        match PatternBased.Predict(h.pattern, o, message)
        case Err(e) => Err(e)
        case Ok(patternResult) => Ok(Combine(ruleResult, patternResult))
  }

  /**
    A fitted, well-formed hybrid reports the 0.4 / 0.6 blend of its halves'
    confidences, which lies in [0, 1] and between the two, and the type of the strictly more confident rule
    side or else of the pattern side.
  */
  lemma PredictOutcome(h: HybridClassifier, o: TextOracle, message: string)
    requires h.isFitted && h.rule.isFitted && h.pattern.isFitted && WellFormed(h)
    ensures var r := Predict(h, o, message).value;
      var ruleResult := RuleBased.Predict(h.rule, o, message).value;
      var patternResult := PatternBased.Predict(h.pattern, o, message).value;
      && r.confidence == RuleWeight * ruleResult.confidence + PatternWeight * patternResult.confidence
      && 0.0 <= r.confidence <= 1.0
      && (ruleResult.confidence > patternResult.confidence ==> r.errorType == ruleResult.errorType)
      && (ruleResult.confidence <= patternResult.confidence ==> r.errorType == patternResult.errorType)
      && (ruleResult.confidence <= patternResult.confidence ==> ruleResult.confidence <= r.confidence <= patternResult.confidence)
      && (patternResult.confidence <= ruleResult.confidence ==> patternResult.confidence <= r.confidence <= ruleResult.confidence)
  {
    RuleBased.ConfidenceBounds(h.rule, o, message);
    CombineConfidence(RuleBased.Predict(h.rule, o, message).value, PatternBased.Predict(h.pattern, o, message).value);
  }

  /**
    When the pattern side names a registered type, its metadata is kept even
    when the rule side's type wins: the merged result's type and metadata
    can then describe two different error types.
  */
  lemma MetadataFollowsPattern(h: HybridClassifier, o: TextOracle, message: string)
    requires Predict(h, o, message).Ok?
    requires PatternBased.Predict(h.pattern, o, message).value.errorType in GetAllErrorTypes(GlobalRegistry())
    ensures Predict(h, o, message).value.metadata == GetErrorMetadata(PatternBased.Predict(h.pattern, o, message).value.errorType)
    ensures Predict(h, o, message).value.metadata.Some?
  {
    var t := PatternBased.Predict(h.pattern, o, message).value.errorType;
    GlobalLookup(t);
  }

  /** `rule_proba.get(t, 0.0)`. */
  function GetOrZero(probs: map<ErrorTypeId, real>, t: ErrorTypeId): real {
    if t in probs then probs[t] else 0.0
  }

  /**
    `predict_proba`: every type either half reports, at the blend of the two
    halves' values (0.0 for a missing one). Only the rule half checks `fit`.
  */
  function PredictProba(h: HybridClassifier, o: TextOracle, message: string): (r: Result<map<ErrorTypeId, real>, Failure>)
    ensures r.Err? <==> !h.rule.isFitted
    ensures r.Ok? ==> r.value.Keys == RuleBased.PredictProba(h.rule, o, message).value.Keys
                                      + PatternBased.PredictProba(h.pattern, o, message).Keys
  {
    match RuleBased.PredictProba(h.rule, o, message)
    case Err(e) => Err(e)
    case Ok(ruleProbs) =>
      Ok(BlendMaps(ruleProbs, PatternBased.PredictProba(h.pattern, o, message)))
  }

  /** Every type either map reports, at the blend of the two values (0.0 for a missing one). */
  function BlendMaps(ruleProbs: map<ErrorTypeId, real>, patternProbs: map<ErrorTypeId, real>): (probs: map<ErrorTypeId, real>)
    ensures probs.Keys == ruleProbs.Keys + patternProbs.Keys
    ensures forall t | t in ruleProbs && t in patternProbs ::
      probs[t] == RuleWeight * ruleProbs[t] + PatternWeight * patternProbs[t]
    ensures forall t | t in ruleProbs && t !in patternProbs :: probs[t] == RuleWeight * ruleProbs[t]
    ensures forall t | t in patternProbs && t !in ruleProbs :: probs[t] == PatternWeight * patternProbs[t]
  {
    map t | t in ruleProbs.Keys + patternProbs.Keys :: Blend(GetOrZero(ruleProbs, t), GetOrZero(patternProbs, t))
  }

  /**
    Blending probabilities gives probabilities: a type both sides report gets
    the 0.4 / 0.6 blend, and a type only one side reports keeps that side's
    weighted share.
  */
  lemma BlendMapsBounds(ruleProbs: map<ErrorTypeId, real>, patternProbs: map<ErrorTypeId, real>)
    requires forall t | t in ruleProbs :: 0.0 <= ruleProbs[t] <= 1.0
    requires forall t | t in patternProbs :: 0.0 <= patternProbs[t] <= 1.0
    ensures var probs := BlendMaps(ruleProbs, patternProbs);
      && (forall t | t in probs :: 0.0 <= probs[t] <= 1.0)
      && (forall t | t in ruleProbs && t in patternProbs ::
            probs[t] == RuleWeight * ruleProbs[t] + PatternWeight * patternProbs[t])
      && (forall t | t in ruleProbs && t !in patternProbs :: probs[t] == RuleWeight * ruleProbs[t])
      && (forall t | t in patternProbs && t !in ruleProbs :: probs[t] == PatternWeight * patternProbs[t])
  {
    var probs := BlendMaps(ruleProbs, patternProbs);
    forall t | t in probs ensures 0.0 <= probs[t] <= 1.0 {
      BlendBetween(GetOrZero(ruleProbs, t), GetOrZero(patternProbs, t));
    }
  }

  /**
    For a well-formed hybrid every blended probability lies in [0, 1]; a type
    both halves report gets the 0.4 / 0.6 blend, and a type only one half
    reports keeps that half's weighted share.
  */
  lemma PredictProbaOutcome(h: HybridClassifier, o: TextOracle, message: string)
    requires h.rule.isFitted && WellFormed(h)
    ensures var probs := PredictProba(h, o, message).value;
      var ruleProbs := RuleBased.PredictProba(h.rule, o, message).value;
      var patternProbs := PatternBased.PredictProba(h.pattern, o, message);
      && probs.Keys == ruleProbs.Keys + patternProbs.Keys
      && (forall t | t in probs :: 0.0 <= probs[t] <= 1.0)
      && (forall t | t in ruleProbs && t in patternProbs ::
            probs[t] == RuleWeight * ruleProbs[t] + PatternWeight * patternProbs[t])
      && (forall t | t in ruleProbs && t !in patternProbs :: probs[t] == RuleWeight * ruleProbs[t])
      && (forall t | t in patternProbs && t !in ruleProbs :: probs[t] == PatternWeight * patternProbs[t])
  {
    RuleBased.ConfidenceBounds(h.rule, o, message);
    PatternBased.ProbaBounds(h.pattern, o, message);
    BlendMapsBounds(RuleBased.PredictProba(h.rule, o, message).value, PatternBased.PredictProba(h.pattern, o, message));
  }

  /** `score`: accuracy of the hybrid's `predict` over the test data. */
  function Score(h: HybridClassifier, o: TextOracle, data: TrainingData): (r: Result<real, Failure>)
    ensures !h.isFitted ==> r == Err(NotFitted)
    ensures h.isFitted && (!h.rule.isFitted || !h.pattern.isFitted) ==> r == Err(NotFitted)
    ensures h.isFitted && h.rule.isFitted && h.pattern.isFitted && |data.errorMessages| != |data.errorTypes| ==> r == Err(LengthMismatch)
    ensures h.isFitted && h.rule.isFitted && h.pattern.isFitted && |data.errorMessages| == |data.errorTypes| && data.errorMessages == [] ==> r == Ok(0.0)
    ensures h.isFitted && h.rule.isFitted && h.pattern.isFitted && |data.errorMessages| == |data.errorTypes| && data.errorMessages != [] ==>
      r == Ok(|set i: nat | i < |data.errorTypes|
                 && Combine(RuleBased.Classify(h.rule, o, data.errorMessages[i]),
                            PatternBased.Classify(h.pattern, o, data.errorMessages[i])).errorType == data.errorTypes[i]| as real
        / |data.errorMessages| as real)
  {
    var predicted := seq(|data.errorMessages|, i requires 0 <= i < |data.errorMessages| =>
      Combine(RuleBased.Classify(h.rule, o, data.errorMessages[i]),
              PatternBased.Classify(h.pattern, o, data.errorMessages[i])).errorType);
    assert |data.errorMessages| == |data.errorTypes| ==>
      (set i: nat | i < |data.errorTypes| && predicted[i] == data.errorTypes[i])
        == (set i: nat | i < |data.errorTypes| && Combine(RuleBased.Classify(h.rule, o, data.errorMessages[i]),
                         PatternBased.Classify(h.pattern, o, data.errorMessages[i])).errorType == data.errorTypes[i]);
    Classification.Score(h.isFitted && h.rule.isFitted && h.pattern.isFitted, predicted, data)
  }

  // ---------------------------------------------------------------------------
  // Factory and conversion
  // ---------------------------------------------------------------------------

  /** A classifier of any of the three algorithms. */
  datatype Classifier =
    | RuleBasedClassifier(rule: RuleBased.RuleClassifier)
    | PatternBasedClassifier(pattern: PatternBased.PatternClassifier)
    | HybridBasedClassifier(hybrid: HybridClassifier)

  /** `get_available_algorithms`: the factory's three keys, each once. */
  function AvailableAlgorithms(): (algs: seq<string>)
    ensures |algs| == 3
    ensures forall i, j | 0 <= i < j < |algs| :: algs[i] != algs[j]
  {
    ["rule_based", "pattern_based", "hybrid"]
  }

  function Name(c: Classifier): string {
    match c
    case RuleBasedClassifier(r) => r.name
    case PatternBasedClassifier(p) => p.name
    case HybridBasedClassifier(h) => h.name
  }

  function IsFitted(c: Classifier): bool {
    match c
    case RuleBasedClassifier(r) => r.isFitted
    case PatternBasedClassifier(p) => p.isFitted
    case HybridBasedClassifier(h) => h.isFitted
  }

  /**
    `ClassifierFactory.create_classifier`, whose only keyword argument is the
    name; each algorithm has its own default name.
  */
  function CreateClassifier(algorithm: string, name: Option<string>): (r: Result<Classifier, Failure>)
    ensures r.Ok? <==> algorithm in AvailableAlgorithms()
    ensures r.Err? ==> r.error == UnknownAlgorithm(algorithm)
    ensures r.Ok? ==> !IsFitted(r.value)
    ensures algorithm == "rule_based" ==> r.Ok? && r.value.RuleBasedClassifier? && Name(r.value) == name.GetOr("rule_based_classifier")
    ensures algorithm == "pattern_based" ==> r.Ok? && r.value.PatternBasedClassifier? && Name(r.value) == name.GetOr("pattern_based_classifier")
    ensures algorithm == "hybrid" ==> r.Ok? && r.value.HybridBasedClassifier? && Name(r.value) == name.GetOr("hybrid_classifier")
  {
    if algorithm == "rule_based" then Ok(RuleBasedClassifier(RuleBased.NewClassifier(name.GetOr("rule_based_classifier"))))
    else if algorithm == "pattern_based" then Ok(PatternBasedClassifier(PatternBased.NewClassifier(name.GetOr("pattern_based_classifier"))))
    else if algorithm == "hybrid" then Ok(HybridBasedClassifier(NewClassifier(name.GetOr("hybrid_classifier"))))
    else Err(UnknownAlgorithm(algorithm))
  }

  /** The `details` dictionary of an `ErrorClassification`. */
  datatype Details = Details(
    classificationPath: seq<string>,
    matchedPatterns: seq<string>,
    suggestedActions: seq<Action>,
    confidence: real)

  datatype ErrorClassification = ErrorClassification(
    errorType: ErrorTypeId,
    isRetryable: bool,
    retryDelay: real,
    maxRetries: int,
    shouldOpenCircuit: bool,
    details: Details)

  /**
    `create_error_classification`: the retry policy is read from the result's
    metadata, defaulting to not retryable, 0.0 seconds and 0 retries;
    registry metadata has no circuit-breaker entry, so the circuit stays closed.
  */
  function CreateErrorClassification(result: ClassificationResult): (r: ErrorClassification)
    ensures r.errorType == result.errorType && !r.shouldOpenCircuit
    ensures result.metadata.None? ==> !r.isRetryable && r.retryDelay == 0.0 && r.maxRetries == 0
    ensures result.metadata.Some? ==>
      && r.isRetryable == result.metadata.value.isRetryable
      && r.retryDelay == result.metadata.value.retryDelay
      && r.maxRetries == result.metadata.value.maxRetries
    ensures r.details == Details(result.classificationPath, result.matchedPatterns, result.suggestedActions, result.confidence)
  {
    match result.metadata
    case None => ErrorClassification(result.errorType, false, 0.0, 0, false, Details(result.classificationPath, result.matchedPatterns, result.suggestedActions, result.confidence))
    case Some(m) => ErrorClassification(result.errorType, m.isRetryable, m.retryDelay, m.maxRetries, false, Details(result.classificationPath, result.matchedPatterns, result.suggestedActions, result.confidence))
  }

  /**
    For a result whose metadata is its own type's registry entry, as both
    classifiers produce, the conversion agrees with the registry's helper
    functions for that type.
  */
  lemma ConversionAgreesWithRegistry(result: ClassificationResult)
    ensures result.metadata == GetErrorMetadata(result.errorType) ==>
      && CreateErrorClassification(result).isRetryable == IsRetryableError(result.errorType)
      && CreateErrorClassification(result).retryDelay == GetRetryDelay(result.errorType)
      && CreateErrorClassification(result).maxRetries == GetMaxRetries(result.errorType)
  {
  }

  /** The pattern classifier's results always satisfy the condition above. */
  lemma PatternResultsConvertFaithfully(c: PatternBased.PatternClassifier, o: TextOracle, message: string)
    requires c.isFitted
    ensures CreateErrorClassification(PatternBased.Predict(c, o, message).value).isRetryable
      == IsRetryableError(PatternBased.Predict(c, o, message).value.errorType)
    ensures CreateErrorClassification(PatternBased.Predict(c, o, message).value).retryDelay
      == GetRetryDelay(PatternBased.Predict(c, o, message).value.errorType)
    ensures CreateErrorClassification(PatternBased.Predict(c, o, message).value).maxRetries
      == GetMaxRetries(PatternBased.Predict(c, o, message).value.errorType)
  {
    ConversionAgreesWithRegistry(PatternBased.Predict(c, o, message).value);
  }
}
