/**
  The pieces shared by the three error classifiers: the result record, the
  suggested-action generator, the ordered keyword fallback, match counting,
  keyword extraction and the accuracy `score`.
*/
module Classification {
  import opened Outcomes
  import opened ErrorTypes
  import Grouping
  import Ratios

  /**
    The text primitives the classifiers call and that this model leaves
    uninterpreted: case-insensitive regex search (`re.search(p, s,
    re.IGNORECASE)` is not None), `str.lower`, whitespace `str.split`,
    `re.findall(r'\b\w+\b', s)` and `re.escape`.
  */
  datatype TextOracle = TextOracle(
    search: (string, string) -> bool,
    lower: string -> string,
    split: string -> seq<string>,
    words: string -> seq<string>,
    escape: string -> string)

  /** Messages with their true types; the source's `contexts` and `labels` are never read. */
  datatype TrainingData = TrainingData(errorMessages: seq<string>, errorTypes: seq<ErrorTypeId>)

  /** The exceptions the classifiers raise. */
  datatype Failure =
    | NotFitted             // "Classifier must be fitted before prediction/scoring"
    | LengthMismatch        // `zip(..., strict=True)` over unequal lists
    | UnknownAlgorithm(name: string)

  /** Suggested actions; the retry actions carry the numbers the source formats into text. */
  datatype Action =
    | InvestigateErrorDetails | CheckLogs
    | RetryAfter(seconds: real) | MaximumRetries(count: int) | DoNotRetry
    | CheckNetworkConnectivity | VerifyDnsResolution
    | VerifyCredentials | CheckTokenValidity
    | CheckPermissions | VerifyAccessRights
    | ValidateInputParameters | CheckRequestFormat
    | CheckConfigurationSettings | VerifyEnvironmentVariables
    | CheckFilePermissions | VerifyDiskSpace
    | CheckApiStatus | VerifyRateLimits

  /** `metadata == None` stands for the source's empty dict `{}`. */
  datatype ClassificationResult = ClassificationResult(
    errorType: ErrorTypeId,
    confidence: real,
    metadata: Option<ErrorTypeMetadata>,
    classificationPath: seq<string>,
    matchedPatterns: seq<string>,
    suggestedActions: seq<Action>)

  const UnknownError: ErrorTypeId := "unknown_error"

  // ---------------------------------------------------------------------------
  // Suggested actions
  // ---------------------------------------------------------------------------

  /** The categories the rule-based classifier gives hints for. */
  const RuleHintCategories: set<ErrorCategory> :=
    {Network, Authentication, Authorization, Validation, Configuration, FileSystem, Api}

  /** The categories the pattern-based classifier gives hints for. */
  const PatternHintCategories: set<ErrorCategory> := {Network, Authentication, Authorization}

  /** The two category-specific hints. */
  function CategoryHints(c: ErrorCategory): (hints: seq<Action>)
    ensures hints != [] <==> c in RuleHintCategories
    ensures hints != [] ==> |hints| == 2
  {
    match c
    case Network => [CheckNetworkConnectivity, VerifyDnsResolution]
    case Authentication => [VerifyCredentials, CheckTokenValidity]
    case Authorization => [CheckPermissions, VerifyAccessRights]
    case Validation => [ValidateInputParameters, CheckRequestFormat]
    case Configuration => [CheckConfigurationSettings, VerifyEnvironmentVariables]
    case FileSystem => [CheckFilePermissions, VerifyDiskSpace]
    case Api => [CheckApiStatus, VerifyRateLimits]
    case _ => []
  }

  /** The category a hint action belongs to (None for the other actions). */
  function HintCategory(a: Action): Option<ErrorCategory> {
    match a
    case CheckNetworkConnectivity | VerifyDnsResolution => Some(Network)
    case VerifyCredentials | CheckTokenValidity => Some(Authentication)
    case CheckPermissions | VerifyAccessRights => Some(Authorization)
    case ValidateInputParameters | CheckRequestFormat => Some(Validation)
    case CheckConfigurationSettings | VerifyEnvironmentVariables => Some(Configuration)
    case CheckFilePermissions | VerifyDiskSpace => Some(FileSystem)
    case CheckApiStatus | VerifyRateLimits => Some(Api)
    case _ => None
  }

  /** How many actions open a metadata-driven list: two when retryable, one otherwise. */
  function RetryActionCount(m: ErrorTypeMetadata): nat {
    if m.isRetryable then 2 else 1
  }

  /**
    `_generate_suggested_actions`, parameterised by the categories the
    classifier gives hints for: the two default actions without metadata;
    otherwise the retry advice followed by the category's hints.
  */
  function SuggestedActions(metadata: Option<ErrorTypeMetadata>, hinted: set<ErrorCategory>): (actions: seq<Action>)
    requires hinted <= RuleHintCategories
    ensures metadata.None? ==> actions == [InvestigateErrorDetails, CheckLogs]
    ensures metadata.Some? ==> (
      |actions| == RetryActionCount(metadata.value) + (if metadata.value.category in hinted then 2 else 0))
    ensures metadata.Some? && metadata.value.isRetryable ==> (
      && actions[0] == RetryAfter(metadata.value.retryDelay)
      && actions[1] == MaximumRetries(metadata.value.maxRetries))
    ensures metadata.Some? && !metadata.value.isRetryable ==> actions[0] == DoNotRetry
    ensures metadata.Some? ==> (
      forall i | RetryActionCount(metadata.value) <= i < |actions| ::
        HintCategory(actions[i]) == Some(metadata.value.category))
    ensures metadata.Some? ==> (
      forall i | 0 <= i < RetryActionCount(metadata.value) :: HintCategory(actions[i]).None?)
  {
    match metadata
    case None => [InvestigateErrorDetails, CheckLogs]
    case Some(m) =>
      var retry := if m.isRetryable then [RetryAfter(m.retryDelay), MaximumRetries(m.maxRetries)] else [DoNotRetry];
      retry + (if m.category in hinted then CategoryHints(m.category) else [])
  }

  // ---------------------------------------------------------------------------
  // Substrings and the keyword fallback
  // ---------------------------------------------------------------------------

  /** `needle` occurs in `text` starting at position `i`. */
  ghost predicate OccursAt(text: string, needle: string, i: int) {
    0 <= i && i + |needle| <= |text| && text[i..i + |needle|] == needle
  }

  /** Python's `needle in text` on strings. */
  function Contains(text: string, needle: string): (b: bool)
    ensures b <==> exists i :: OccursAt(text, needle, i)
    decreases |text|
  {
    if |needle| > |text| then
      assert forall i :: !OccursAt(text, needle, i);
      false
    else if text[..|needle|] == needle then
      assert OccursAt(text, needle, 0);
      true
    else
      var b := Contains(text[1..], needle);
      OccursInTail(text, needle);
      b
  }

  /** A non-prefix occurrence is an occurrence in the tail, one position earlier. */
  lemma OccursInTail(text: string, needle: string)
    requires |needle| <= |text| && text[..|needle|] != needle
    ensures (exists i :: OccursAt(text, needle, i)) <==> (exists i :: OccursAt(text[1..], needle, i))
  {
    forall i | OccursAt(text, needle, i) ensures OccursAt(text[1..], needle, i - 1) {
      assert i != 0;
      assert text[1..][i - 1..i - 1 + |needle|] == text[i..i + |needle|];
    }
    forall i | OccursAt(text[1..], needle, i) ensures OccursAt(text, needle, i + 1) {
      assert text[i + 1..i + 1 + |needle|] == text[1..][i..i + |needle|];
    }
  }

  /** Index of the first table key contained in `text`, scanning from `from`. */
  function FirstContained<T>(table: seq<(string, T)>, text: string, from: nat): (r: Option<nat>)
    requires from <= |table|
    ensures r.Some? ==> from <= r.value < |table| && Contains(text, table[r.value].0)
    ensures r.Some? ==> forall j | from <= j < r.value :: !Contains(text, table[j].0)
    ensures r.None? ==> forall j | from <= j < |table| :: !Contains(text, table[j].0)
    decreases |table| - from
  {
    if from == |table| then None
    else if Contains(text, table[from].0) then Some(from)
    else FirstContained(table, text, from + 1)
  }

  /** `keyword_mappings`, in the dictionary's insertion order. */
  function KeywordTable(): (t: seq<(string, ErrorTypeId)>)
    ensures |t| == 18
  {
    seq(18, KeywordEntry)
  }

  /** The keyword at position `k` of `keyword_mappings`, with the type it maps to. */
  function KeywordEntry(k: nat): (string, ErrorTypeId) {
    if k == 0 then ("timeout", "timeout_error")
    else if k == 1 then ("network", "network_error")
    else if k == 2 then ("connection", "network_error")
    else if k == 3 then ("auth", "authentication_error")
    else if k == 4 then ("unauthorized", "authentication_error")
    else if k == 5 then ("forbidden", "authorization_error")
    else if k == 6 then ("permission", "permission_denied_error")
    else if k == 7 then ("not found", "not_found_error")
    else if k == 8 then ("validation", "validation_error")
    else if k == 9 then ("invalid", "invalid_input_error")
    else if k == 10 then ("config", "configuration_error")
    else if k == 11 then ("file", "file_not_found_error")
    else if k == 12 then ("disk", "disk_space_error")
    else if k == 13 then ("rate", "rate_limit_error")
    else if k == 14 then ("server", "server_error")
    else if k == 15 then ("merge", "github_merge_conflict")
    else if k == 16 then ("git", "local_git_error")
    else ("ssh", "github_ssh_error")
  }

  /** The outcome of `_keyword_classification`. */
  datatype KeywordMatch = KeywordMatch(errorType: Option<ErrorTypeId>, confidence: real, patterns: seq<string>, path: seq<string>)

  /**
    `_keyword_classification`: the first table keyword that is a substring of
    the lowercased message decides, at confidence 0.5; no keyword gives no type.
  */
  function KeywordClassification(o: TextOracle, message: string): (k: KeywordMatch)
    ensures k.errorType.None? <==> forall j | 0 <= j < |KeywordTable()| :: !Contains(o.lower(message), KeywordTable()[j].0)
    ensures k.errorType.None? ==> k == KeywordMatch(None, 0.0, [], [])
    ensures k.errorType.Some? ==> exists i | 0 <= i < |KeywordTable()| ::
      && Contains(o.lower(message), KeywordTable()[i].0)
      && (forall j | 0 <= j < i :: !Contains(o.lower(message), KeywordTable()[j].0))
      && k == KeywordMatch(Some(KeywordTable()[i].1), 0.5, [KeywordTable()[i].0], ["keyword_match:" + KeywordTable()[i].0])
  {
    var table := KeywordTable();
    match FirstContained(table, o.lower(message), 0)
    case None => KeywordMatch(None, 0.0, [], [])
    case Some(i) => KeywordMatch(Some(table[i].1), 0.5, [table[i].0], ["keyword_match:" + table[i].0])
  }

  // ---------------------------------------------------------------------------
  // Counting matches and extracting keywords
  // ---------------------------------------------------------------------------

  /** `sum(1 for msg in messages if search(pattern, msg))`. */
  function CountMatches(o: TextOracle, pattern: string, messages: seq<string>): (n: nat)
    ensures n <= |messages|
    ensures n == |messages| <==> forall i | 0 <= i < |messages| :: o.search(pattern, messages[i])
    ensures n == 0 <==> forall i | 0 <= i < |messages| :: !o.search(pattern, messages[i])
  {
    if messages == [] then 0 else
      var last := |messages| - 1;
      assert forall i | 0 <= i < last :: messages[..last][i] == messages[i];
      CountMatches(o, pattern, messages[..last]) + (if o.search(pattern, messages[last]) then 1 else 0)
  }

  /** `matches >= len(messages) * 0.3`, with 0.3 taken as the exact ratio 3/10. */
  predicate ClearsThreshold(count: nat, total: nat) {
    10 * count >= 3 * total
  }

  /** The words of `re.findall(r'\b\w+\b', s.lower())` longer than three letters and not stop words. */
  function Keywords(o: TextOracle, s: string, stopWords: seq<string>): (kws: seq<string>)
    ensures forall w | w in kws :: w in o.words(o.lower(s)) && |w| > 3 && w !in stopWords
    ensures forall w | w in o.words(o.lower(s)) && |w| > 3 && w !in stopWords :: w in kws
  {
    KeepKeywords(o.words(o.lower(s)), stopWords)
  }

  function KeepKeywords(words: seq<string>, stopWords: seq<string>): (kws: seq<string>)
    ensures |kws| <= |words|
    ensures forall w | w in kws :: w in words && |w| > 3 && w !in stopWords
    ensures forall w | w in words && |w| > 3 && w !in stopWords :: w in kws
  {
    if words == [] then [] else
      var rest := KeepKeywords(words[1..], stopWords);
      assert forall w | w in words :: w == words[0] || w in words[1..];
      if |words[0]| > 3 && words[0] !in stopWords then [words[0]] + rest else rest
  }

  // ---------------------------------------------------------------------------
  // Training data
  // ---------------------------------------------------------------------------

  /** The (error type, message) pairs of `zip(error_messages, error_types)`. */
  function Pairs(data: TrainingData): (ps: seq<(ErrorTypeId, string)>)
    requires |data.errorMessages| == |data.errorTypes|
    ensures |ps| == |data.errorTypes|
    ensures forall i | 0 <= i < |ps| :: ps[i] == (data.errorTypes[i], data.errorMessages[i])
  {
    seq(|data.errorTypes|, i requires 0 <= i < |data.errorTypes| => (data.errorTypes[i], data.errorMessages[i]))
  }

  /** The training messages of one type, in order. */
  function TypeMessages(data: TrainingData, t: ErrorTypeId): seq<string>
    requires |data.errorMessages| == |data.errorTypes|
  {
    Grouping.Select(Pairs(data), t)
  }

  /** The group of a trained type holds exactly that type's messages, of which there is at least one. */
  lemma TrainedGroup(data: TrainingData, t: ErrorTypeId) returns (i: nat)
    requires |data.errorMessages| == |data.errorTypes| && t in data.errorTypes
    ensures i < |Grouping.GroupBy(Pairs(data))|
    ensures Grouping.GroupBy(Pairs(data))[i] == (t, TypeMessages(data, t))
    ensures |TypeMessages(data, t)| > 0
  {
    var groups := Grouping.GroupBy(Pairs(data));
    Grouping.GroupByIsReference(Pairs(data));
    var k :| 0 <= k < |data.errorTypes| && data.errorTypes[k] == t;
    assert Grouping.Keys(Pairs(data))[k] == t;
    assert t in Grouping.Keys(groups);
    i :| 0 <= i < |groups| && Grouping.Keys(groups)[i] == t;
    assert Pairs(data)[k] in Pairs(data);
    assert data.errorMessages[k] in TypeMessages(data, t);
  }

  /** Every group of the training data is that of a trained type. */
  lemma GroupType(data: TrainingData, i: nat)
    requires |data.errorMessages| == |data.errorTypes| && i < |Grouping.GroupBy(Pairs(data))|
    ensures Grouping.GroupBy(Pairs(data))[i].0 in data.errorTypes
    ensures Grouping.GroupBy(Pairs(data))[i].1 == TypeMessages(data, Grouping.GroupBy(Pairs(data))[i].0)
  {
    var groups := Grouping.GroupBy(Pairs(data));
    Grouping.GroupByIsReference(Pairs(data));
    assert Grouping.Keys(groups)[i] == groups[i].0;
    assert groups[i].0 in Grouping.Keys(Pairs(data));
    var k :| 0 <= k < |Pairs(data)| && Grouping.Keys(Pairs(data))[k] == groups[i].0;
    assert data.errorTypes[k] == groups[i].0;
  }

  /** `[prefix + p for p in ps]`. */
  function Prefixed(prefix: string, ps: seq<string>): (r: seq<string>)
    ensures |r| == |ps|
    ensures forall i | 0 <= i < |ps| :: r[i] == prefix + ps[i]
  {
    seq(|ps|, i requires 0 <= i < |ps| => prefix + ps[i])
  }

  // ---------------------------------------------------------------------------
  // Accuracy
  // ---------------------------------------------------------------------------

  function CountCorrect(predicted: seq<ErrorTypeId>, truth: seq<ErrorTypeId>): (n: nat)
    requires |predicted| == |truth|
    ensures n <= |truth|
    ensures n == |truth| <==> forall i | 0 <= i < |truth| :: predicted[i] == truth[i]
    ensures n == 0 <==> forall i | 0 <= i < |truth| :: predicted[i] != truth[i]
  {
    if truth == [] then 0 else
      var last := |truth| - 1;
      assert forall i | 0 <= i < last :: predicted[..last][i] == predicted[i] && truth[..last][i] == truth[i];
      CountCorrect(predicted[..last], truth[..last]) + (if predicted[last] == truth[last] then 1 else 0)
  }

  /** The positions whose prediction is the true type. */
  ghost function CorrectPositions(predicted: seq<ErrorTypeId>, truth: seq<ErrorTypeId>): set<nat>
    requires |predicted| == |truth|
  {
    set i: nat | i < |truth| && predicted[i] == truth[i]
  }

  /** Counting correct predictions one by one counts the correctly predicted positions. */
  lemma {:induction false} CountCorrectIsCardinality(predicted: seq<ErrorTypeId>, truth: seq<ErrorTypeId>)
    requires |predicted| == |truth|
    ensures CountCorrect(predicted, truth) == |CorrectPositions(predicted, truth)|
    decreases |truth|
  {
    if truth != [] {
      var last := |truth| - 1;
      var before := CorrectPositions(predicted[..last], truth[..last]);
      CountCorrectIsCardinality(predicted[..last], truth[..last]);
      assert last !in before;
      if predicted[last] == truth[last] {
        assert CorrectPositions(predicted, truth) == before + {last};
      } else {
        assert CorrectPositions(predicted, truth) == before;
      }
    }
  }

  /** `correct / total if total > 0 else 0.0`. */
  function Accuracy(correct: nat, total: nat): (a: real)
    requires correct <= total
    ensures 0.0 <= a <= 1.0
    ensures total == 0 ==> a == 0.0
    ensures total > 0 ==> a * total as real == correct as real
    ensures total > 0 ==> (a == 1.0 <==> correct == total)
    ensures total > 0 ==> (a == 0.0 <==> correct == 0)
  {
    if total > 0 then
      Ratios.FractionBounds(correct, total);
      assert (correct as real / total as real) * total as real == correct as real;
      correct as real / total as real
    else 0.0
  }

  /** The accuracy of a list of predictions, stated about the predictions themselves. */
  lemma AccuracyFacts(predicted: seq<ErrorTypeId>, truth: seq<ErrorTypeId>)
    requires |predicted| == |truth|
    ensures truth != [] ==>
      Accuracy(CountCorrect(predicted, truth), |truth|) == |CorrectPositions(predicted, truth)| as real / |truth| as real
    ensures truth != [] ==> (Accuracy(CountCorrect(predicted, truth), |truth|) == 1.0
      <==> forall i | 0 <= i < |truth| :: predicted[i] == truth[i])
    ensures truth != [] ==> (Accuracy(CountCorrect(predicted, truth), |truth|) == 0.0
      <==> forall i | 0 <= i < |truth| :: predicted[i] != truth[i])
  {
    CountCorrectIsCardinality(predicted, truth);
  }

  /**
    `score`, shared by the three classifiers, given the classifier's
    prediction for each test message: fails before fitting and on unequal
    lists; otherwise the fraction of messages whose predicted type is the true
    type, 0.0 for no messages.
  */
  function Score(isFitted: bool, predicted: seq<ErrorTypeId>, data: TrainingData): (r: Result<real, Failure>)
    requires |predicted| == |data.errorMessages|
    ensures !isFitted ==> r == Err(NotFitted)
    ensures isFitted && |data.errorMessages| != |data.errorTypes| ==> r == Err(LengthMismatch)
    ensures isFitted && |data.errorMessages| == |data.errorTypes| ==> r.Ok?
    ensures r.Ok? ==> 0.0 <= r.value <= 1.0
    ensures r.Ok? && data.errorMessages == [] ==> r.value == 0.0
    ensures r.Ok? && data.errorMessages != [] ==>
      r.value == |set i: nat | i < |data.errorTypes| && predicted[i] == data.errorTypes[i]| as real
        / |data.errorMessages| as real
    ensures r.Ok? && data.errorMessages != [] ==> (
      r.value == 1.0 <==> forall i | 0 <= i < |data.errorTypes| :: predicted[i] == data.errorTypes[i])
    ensures r.Ok? && data.errorMessages != [] ==> (
      r.value == 0.0 <==> forall i | 0 <= i < |data.errorTypes| :: predicted[i] != data.errorTypes[i])
  {
    if !isFitted then Err(NotFitted)
    else if |data.errorMessages| != |data.errorTypes| then Err(LengthMismatch)
    else
      AccuracyFacts(predicted, data.errorTypes);
      Ok(Accuracy(CountCorrect(predicted, data.errorTypes), |data.errorTypes|))
  }
}
