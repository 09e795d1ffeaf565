# Error classification, model mixing and service metrics — a Dafny model

This project models four parts of the Gemini SRE agent and proves properties
of them.

- **The error-type registry** (`error_types.py`). `ErrorTypeRegistry` is
  filled by 26 `_add_error_metadata` calls. It keeps an id → metadata
  dictionary, a category index, a severity index and a retryable /
  non-retryable partition. The module-level helpers `get_error_metadata`,
  `is_retryable_error`, `get_retry_delay`, `get_max_retries`,
  `get_error_severity` and `get_error_category` read the global instance.
  Modules `ErrorTypes` (file `error_types.dfy`) and `Grouping`
  (`grouping.dfy`): `Grouping` holds the insertion-ordered dictionaries the
  source builds.
- **The three error classifiers** (`classification_algorithms.py`).
  - The rule-based classifier keeps library patterns that match at least
    30% of a type's messages, sorts its rules by confidence, and falls back
    to a keyword table.
  - The pattern-based classifier learns frequent phrases and weighted regex
    signals per type, and picks the first type with the greatest score.
  - The hybrid classifier blends the two 0.4 / 0.6.
  - The module also has the `create_classifier` factory and the conversion
    to an `ErrorClassification`.

  Modules `Classification`, `RuleBased`, `PatternBased` and `Hybrid`.
- **The model-mixing executors and the strategy monitor**
  (`mixing_strategies.py`): parallel, sequential, cascade, voting, weighted
  and hierarchical execution over a list of model configs, and
  `StrategyPerformanceMonitor`. Modules `Mixing` and `StrategyMonitor`.
- **The LLM service's bookkeeping** (`service_base.py`): the incremental
  request metrics, the selection counters, `reset_metrics` and
  `health_check`. Module `ServiceMetrics`.

Outcomes that Python signals by raising (an unfitted classifier, lists of
unequal length, an unknown algorithm name, a missing provider, a timeout)
become `Result` values in `outcomes.dfy`. `ratios.dfy` holds the small facts
about fractions that several modules share.

Two oracles stand in for code outside the model. Both are parameters of
every operation that needs them, so every property holds whatever they
return.

- `TextOracle` stands for `re.search` (case-insensitive), `str.lower`,
  `str.split`, `re.findall(r"\b\w+\b", …)` and `re.escape`.
- `Providers` stands for the provider factory: whether `get_provider`
  returns a provider, and what that provider's generation yields within the
  timeout (a response, a timeout or an exception).

Floating-point values are modelled as exact reals. Python's dictionaries
are modelled as sequences of key/value pairs in insertion order wherever
that order is observable (grouping, `max` ties, the phrase counts). Elsewhere
they are Dafny maps.

## Model

| member | source | states |
|---|---|---|
| ErrorTypes.GetMetadata | gemini_sre_agent/source_control/error_handling/error_types.py:553-555 | `get_metadata` finds an id exactly when it is registered, and returns the stored record |
| ErrorTypes.GetErrorsByCategory | gemini_sre_agent/source_control/error_handling/error_types.py:557-559 | a category that no registration used yields the empty set |
| ErrorTypes.GetErrorsBySeverity | gemini_sre_agent/source_control/error_handling/error_types.py:561-563 | a severity that no registration used yields the empty set |
| ErrorTypes.GetAllErrorTypes | gemini_sre_agent/source_control/error_handling/error_types.py:573-575 | exactly the ids that a lookup finds |
| ErrorTypes.GetErrorCategories | gemini_sre_agent/source_control/error_handling/error_types.py:577-579 | all eleven categories, each exactly once |
| ErrorTypes.GetErrorSeverities | gemini_sre_agent/source_control/error_handling/error_types.py:581-583 | all four severities, each exactly once |
| ErrorTypes.AddErrorMetadata | gemini_sre_agent/source_control/error_handling/error_types.py:511-551 | one registration stores the record under its id and adds the id to its own category set, its own severity set and exactly one of the retryable/non-retryable sets; every other id, category and severity is untouched |
| ErrorTypes.AddPreservesConsistent | gemini_sre_agent/source_control/error_handling/error_types.py:511-551 | registering a new id keeps the registry's invariant: the two retryability sets partition the registered ids, and an id is in a category (severity) set iff its record has that category (severity) |
| ErrorTypes.BuildKeys | gemini_sre_agent/source_control/error_handling/error_types.py:186-509 | after a run of registrations the registered ids are exactly the ids of the calls |
| ErrorTypes.BuildConsistent | gemini_sre_agent/source_control/error_handling/error_types.py:176-186 | registering distinct ids into an empty registry, as the constructor does, yields a registry satisfying the invariant |
| ErrorTypes.BuildLookup | gemini_sre_agent/source_control/error_handling/error_types.py:524-535 | when the ids of a run of registrations are distinct, each call's record is what `get_metadata` returns for its id |
| ErrorTypes.IdSetSnoc | gemini_sre_agent/source_control/error_handling/error_types.py:524-535 | one more registration adds exactly its id to the registered ids |
| ErrorTypes.RegistrationIndex | gemini_sre_agent/source_control/error_handling/error_types.py:186-509 | the position found for an id is the position of the call that registers it, or -1 |
| ErrorTypes.InitialMetadata | gemini_sre_agent/source_control/error_handling/error_types.py:186-509 | the record registered for an id exists exactly when the initialisation table has a call for it, and carries that call's severity, category and retry policy |
| ErrorTypes.PolicyAtDefined | gemini_sre_agent/source_control/error_handling/error_types.py:186-509 | the initialisation table has exactly 26 calls |
| ErrorTypes.TableIndexed | gemini_sre_agent/source_control/error_handling/error_types.py:186-509 | each of the 26 registered ids is found at its own call's position, so no id is registered twice |
| ErrorTypes.IndexedNetwork | gemini_sre_agent/source_control/error_handling/error_types.py:188-247 | the five network registrations are found at their own positions |
| ErrorTypes.IndexedAccess | gemini_sre_agent/source_control/error_handling/error_types.py:249-297 | the authentication and authorization registrations are found at their own positions |
| ErrorTypes.IndexedValidation | gemini_sre_agent/source_control/error_handling/error_types.py:299-347 | the validation and configuration registrations are found at their own positions |
| ErrorTypes.IndexedFileSystem | gemini_sre_agent/source_control/error_handling/error_types.py:349-384 | the file-system registrations are found at their own positions |
| ErrorTypes.IndexedSsh | gemini_sre_agent/source_control/error_handling/error_types.py:386-409 | the security (SSH) registrations are found at their own positions |
| ErrorTypes.IndexedApi | gemini_sre_agent/source_control/error_handling/error_types.py:411-446 | the API registrations are found at their own positions |
| ErrorTypes.IndexedMergeConflicts | gemini_sre_agent/source_control/error_handling/error_types.py:448-471 | the provider (merge conflict) registrations are found at their own positions |
| ErrorTypes.IndexedLocal | gemini_sre_agent/source_control/error_handling/error_types.py:473-509 | the local and unknown registrations are found at their own positions |
| ErrorTypes.UnregisteredIndex | gemini_sre_agent/source_control/error_handling/error_types.py:186-509 | an id is not found exactly when no call of the table registers it |
| ErrorTypes.TableIdsHaveMetadata | gemini_sre_agent/source_control/error_handling/error_types.py:186-509 | every id the table registers has a record |
| ErrorTypes.Table | gemini_sre_agent/source_control/error_handling/error_types.py:186-509 | the 26 registrations in call order, each with the record built from its arguments |
| ErrorTypes.RegisteredAtIndex | gemini_sre_agent/source_control/error_handling/error_types.py:186-509 | an id with a record is registered by the call at its found position |
| ErrorTypes.TableIdsUnique | gemini_sre_agent/source_control/error_handling/error_types.py:186-509 | no two calls of the table register the same id, so no call overwrites another |
| ErrorTypes.UniqueIdSetSize | gemini_sre_agent/source_control/error_handling/error_types.py:573-575 | a run of registrations with distinct ids registers as many ids as it has calls |
| ErrorTypes.GlobalRegistryConsistent | gemini_sre_agent/source_control/error_handling/error_types.py:587 | the module-level registry satisfies the index invariant |
| ErrorTypes.GlobalLookup | gemini_sre_agent/source_control/error_handling/error_types.py:553-555 | `get_metadata` on the module-level registry returns the table's record for every registered id and None for every other string |
| ErrorTypes.RegisteredLookup | gemini_sre_agent/source_control/error_handling/error_types.py:553-555 | a registered id's lookup in the module-level registry is its table record |
| ErrorTypes.UnregisteredLookup | gemini_sre_agent/source_control/error_handling/error_types.py:553-555 | an id the table does not register is absent from the module-level registry |
| ErrorTypes.RegisteredIds | gemini_sre_agent/source_control/error_handling/error_types.py:573-575 | `get_all_error_types` is exactly the table's ids, 26 of them |
| ErrorTypes.GetErrorMetadata | gemini_sre_agent/source_control/error_handling/error_types.py:590-592 | `get_error_metadata` is the table record for registered ids and None otherwise |
| ErrorTypes.IsRetryableError | gemini_sre_agent/source_control/error_handling/error_types.py:605-608 | true exactly for registered ids whose record is retryable |
| ErrorTypes.GetRetryDelay | gemini_sre_agent/source_control/error_handling/error_types.py:611-614 | the registered delay, or 0.0 for an unregistered id |
| ErrorTypes.GetMaxRetries | gemini_sre_agent/source_control/error_handling/error_types.py:617-620 | the registered retry count, or 0 for an unregistered id |
| ErrorTypes.GetErrorSeverity | gemini_sre_agent/source_control/error_handling/error_types.py:623-626 | the registered severity, None exactly for unregistered ids |
| ErrorTypes.GetErrorCategory | gemini_sre_agent/source_control/error_handling/error_types.py:629-632 | the registered category, None exactly for unregistered ids |
| ErrorTypes.CategoryAndSeverityIndexes | gemini_sre_agent/source_control/error_handling/error_types.py:537-545 | in the module-level registry an id is in a category's (severity's) set exactly when it is registered with that category (severity) |
| ErrorTypes.RetryablePartition | gemini_sre_agent/source_control/error_handling/error_types.py:547-551 | the retryable and non-retryable sets are disjoint, their union is every registered id, and membership agrees with `is_retryable_error` and the record |
| ErrorTypes.TableSeverities | gemini_sre_agent/source_control/error_handling/error_types.py:186-509 | every registered id has severity MEDIUM or HIGH |
| ErrorTypes.PolicySeverities | gemini_sre_agent/source_control/error_handling/error_types.py:186-509 | every call of the table passes MEDIUM or HIGH |
| ErrorTypes.LowAndCriticalUnused | gemini_sre_agent/source_control/error_handling/error_types.py:561-563 | `get_errors_by_severity` returns the empty set for LOW and for CRITICAL |
| ErrorTypes.RetryPolicyCoherent | gemini_sre_agent/source_control/error_handling/error_types.py:605-620 | for a registered id, a retryable one has a positive delay and at least one retry, and a non-retryable one has delay 0.0 and 0 retries |
| ErrorTypes.TableRetryPolicy | gemini_sre_agent/source_control/error_handling/error_types.py:186-509 | every registered record with the retryable flag has delay > 0 and retries >= 1; without it, delay 0.0 and retries 0 |
| ErrorTypes.RetryableTableDelay | gemini_sre_agent/source_control/error_handling/error_types.py:186-509 | every retryable call of the table passes a positive delay |
| ErrorTypes.RetryableTableRetries | gemini_sre_agent/source_control/error_handling/error_types.py:186-509 | every retryable call of the table passes at least one retry |
| ErrorTypes.NonRetryableTableDelay | gemini_sre_agent/source_control/error_handling/error_types.py:186-509 | every non-retryable call of the table passes delay 0.0 |
| ErrorTypes.NonRetryableTableRetries | gemini_sre_agent/source_control/error_handling/error_types.py:186-509 | every non-retryable call of the table passes 0 retries |
| ErrorTypes.UnknownErrorRegistered | gemini_sre_agent/source_control/error_handling/error_types.py:498-509 | `unknown_error` has severity MEDIUM and category UNKNOWN, is not retryable, with delay 0.0 and 0 retries |
| ErrorTypes.UnknownErrorPolicy | gemini_sre_agent/source_control/error_handling/error_types.py:498-509 | the call for `unknown_error` registers MEDIUM, UNKNOWN, not retryable, 0.0, 0 |
| ErrorTypes.UnregisteredDefaults | gemini_sre_agent/source_control/error_handling/error_types.py:605-632 | for an unregistered id the helpers return None, False, 0.0, 0, None and None |
| ErrorTypes.ProxyErrorUnregistered | gemini_sre_agent/source_control/error_handling/error_types.py:54-65 | `proxy_error` is declared but never registered, so it has no severity and is not retryable |
| Grouping.Add | gemini_sre_agent/source_control/error_handling/classification_algorithms.py:96-99 | appending a message to its type's list adds the type as a new last key only when it is not already present |
| Grouping.Lookup | gemini_sre_agent/source_control/error_handling/classification_algorithms.py:429 | a dictionary lookup finds exactly the keys present |
| Grouping.Put | gemini_sre_agent/source_control/error_handling/classification_algorithms.py:351 | assigning a key's value replaces it in place, or appends the key when new; other keys keep their values |
| Grouping.PutEachLookup | gemini_sre_agent/source_control/error_handling/classification_algorithms.py:350-352 | after assigning each group's learned list, a key of the groups maps to the list learned from its messages and any other key keeps its old value |
| Grouping.PutEachKeys | gemini_sre_agent/source_control/error_handling/classification_algorithms.py:350-352 | assigning each group keeps the dictionary's keys distinct and never drops an old key |
| Grouping.NewKeys | gemini_sre_agent/source_control/error_handling/classification_algorithms.py:350-352 | the keys of a list that a dictionary does not yet hold, each once, in order |
| Grouping.PutEachKeyOrder | gemini_sre_agent/source_control/error_handling/classification_algorithms.py:350-352 | storing groups keeps the old keys in place and appends the new ones in order of first occurrence |
| Grouping.NewKeysStep | gemini_sre_agent/source_control/error_handling/classification_algorithms.py:351 | storing a new key appends it after the existing keys, ahead of the keys the rest of the list adds |
| Grouping.NewKeysKnown | gemini_sre_agent/source_control/error_handling/classification_algorithms.py:351 | storing a key already present adds no key |
| Grouping.FirstSeen | gemini_sre_agent/source_control/error_handling/classification_algorithms.py:95-99 | reference: each key once, in order of first appearance |
| Grouping.Select | gemini_sre_agent/source_control/error_handling/classification_algorithms.py:95-99 | reference: the values paired with a key, in input order |
| Grouping.GroupByIsReference | gemini_sre_agent/source_control/error_handling/classification_algorithms.py:95-99 | grouping by key yields the keys in first-seen order, each with its values in input order |
| Grouping.GroupByKeys | gemini_sre_agent/source_control/error_handling/classification_algorithms.py:95-99 | the grouped keys are the keys in first-seen order |
| Grouping.GroupByValues | gemini_sre_agent/source_control/error_handling/classification_algorithms.py:95-99 | each group holds exactly its key's values, in input order |
| Grouping.SelectAbsent | gemini_sre_agent/source_control/error_handling/classification_algorithms.py:95-99 | a key that never occurs has no values |
| Grouping.GroupByPermutes | gemini_sre_agent/source_control/error_handling/classification_algorithms.py:95-99 | the concatenated groups are a permutation of the input values |
| Grouping.IndexOfPrefix | gemini_sre_agent/source_control/error_handling/classification_algorithms.py:95-99 | a key's first occurrence is the same in a prefix that contains it |
| Grouping.FlattenUpdate | gemini_sre_agent/source_control/error_handling/classification_algorithms.py:99 | appending values to one group adds exactly those values to the concatenation |
| Classification.CategoryHints | gemini_sre_agent/source_control/error_handling/classification_algorithms.py:272-292 | the rule-based classifier adds two hints for exactly the seven hinted categories |
| Classification.SuggestedActions | gemini_sre_agent/source_control/error_handling/classification_algorithms.py:259-294 | without metadata the two default actions; otherwise the retry advice (delay and retries when retryable, the single do-not-retry action when not) followed by two hints of the record's category when that category is hinted |
| Classification.Contains | gemini_sre_agent/source_control/error_handling/classification_algorithms.py:253 | Python's substring test: true exactly when the keyword occurs at some position |
| Classification.FirstContained | gemini_sre_agent/source_control/error_handling/classification_algorithms.py:252-257 | the first table entry whose keyword occurs in the text, or none when no keyword occurs |
| Classification.KeywordTable | gemini_sre_agent/source_control/error_handling/classification_algorithms.py:230-249 | the 18 keyword mappings, in insertion order |
| Classification.KeywordClassification | gemini_sre_agent/source_control/error_handling/classification_algorithms.py:225-257 | no type exactly when no keyword occurs in the lowercased message; otherwise the first occurring keyword's type at 0.5 with evidence `[kw]` and `keyword_match:kw` |
| Classification.CountMatches | gemini_sre_agent/source_control/error_handling/classification_algorithms.py:148 | the count is all messages exactly when every message matches, and 0 exactly when none does |
| Classification.Keywords | gemini_sre_agent/source_control/error_handling/classification_algorithms.py:162-170 | the kept words are exactly the words of the lowercased text longer than three letters that are not stop words |
| Classification.KeepKeywords | gemini_sre_agent/source_control/error_handling/classification_algorithms.py:167-169 | the kept words are exactly the long non-stop words |
| Classification.Pairs | gemini_sre_agent/source_control/error_handling/classification_algorithms.py:96 | `zip(messages, types)` pairs position by position |
| Classification.TrainedGroup | gemini_sre_agent/source_control/error_handling/classification_algorithms.py:95-103 | every type of the training data has a non-empty group holding its messages |
| Classification.GroupType | gemini_sre_agent/source_control/error_handling/classification_algorithms.py:95-103 | every group is a training type with exactly that type's messages |
| Classification.Prefixed | gemini_sre_agent/source_control/error_handling/classification_algorithms.py:463 | the classification path is the matched patterns, each with the prefix |
| Classification.CountCorrect | gemini_sre_agent/source_control/error_handling/classification_algorithms.py:316-322 | all predictions are counted correct exactly when every one matches, and none exactly when every one differs |
| Classification.CountCorrectIsCardinality | gemini_sre_agent/source_control/error_handling/classification_algorithms.py:316-322 | counting one position at a time counts the set of correctly predicted positions |
| Classification.Accuracy | gemini_sre_agent/source_control/error_handling/classification_algorithms.py:324 | `correct / total` is in [0, 1], times `total` gives `correct`, is 1.0 exactly when all are correct and 0.0 exactly when none are; 0.0 when `total` is 0 |
| Classification.AccuracyFacts | gemini_sre_agent/source_control/error_handling/classification_algorithms.py:316-324 | the accuracy of a prediction list is the size of its set of correct positions over its length, 1.0 iff all are right, 0.0 iff all are wrong |
| Classification.Score | gemini_sre_agent/source_control/error_handling/classification_algorithms.py:311-324 | fails before fitting and on unequal lists, and succeeds otherwise; the score is the number of positions whose prediction equals the true type divided by the number of messages, 0.0 for none; it lies in [0, 1], is 1.0 exactly when every prediction is right and 0.0 exactly when every one is wrong |
| RuleBased.NewClassifier | gemini_sre_agent/source_control/error_handling/classification_algorithms.py:71-77 | a fresh classifier has its name, no rules and is not fitted |
| RuleBased.LibraryPatterns | gemini_sre_agent/source_control/error_handling/classification_algorithms.py:117-135 | the 17 library patterns |
| RuleBased.ExtractPatterns | gemini_sre_agent/source_control/error_handling/classification_algorithms.py:112-142 | a library pattern is kept exactly when it matches at least 30% of the messages |
| RuleBased.RulesForType | gemini_sre_agent/source_control/error_handling/classification_algorithms.py:102-107 | a type's new rules are exactly the library patterns that clear the threshold on its messages, each with its match fraction |
| RuleBased.RulesForTypeMembers | gemini_sre_agent/source_control/error_handling/classification_algorithms.py:104-107 | one rule per kept pattern and no other |
| RuleBased.GroupRules | gemini_sre_agent/source_control/error_handling/classification_algorithms.py:101-107 | the new rules are exactly the rules of each type's group |
| RuleBased.InsertIntoSorted | gemini_sre_agent/source_control/error_handling/classification_algorithms.py:110 | inserting into a sorted list keeps it sorted by non-increasing confidence and adds exactly that rule |
| RuleBased.InsertBounded | gemini_sre_agent/source_control/error_handling/classification_algorithms.py:110 | insertion keeps every confidence under a common bound |
| RuleBased.InsertPermutes | gemini_sre_agent/source_control/error_handling/classification_algorithms.py:110 | insertion adds exactly one copy of the rule |
| RuleBased.SortByConfidence | gemini_sre_agent/source_control/error_handling/classification_algorithms.py:110 | `sort(key=confidence, reverse=True)`: sorted by non-increasing confidence and a permutation of the input |
| RuleBased.SortIsStable | gemini_sre_agent/source_control/error_handling/classification_algorithms.py:110 | the sort is stable: rules of equal confidence keep their relative order |
| RuleBased.InsertKeepsOrder | gemini_sre_agent/source_control/error_handling/classification_algorithms.py:110 | insertion goes after every rule of equal confidence |
| RuleBased.Fit | gemini_sre_agent/source_control/error_handling/classification_algorithms.py:79-110 | fails exactly on unequal lists; otherwise fitted, with the old and the new rules together, sorted by confidence |
| RuleBased.FitStable | gemini_sre_agent/source_control/error_handling/classification_algorithms.py:101-110 | after fitting, rules of equal confidence keep the earlier rules first, then the new rules in group order |
| RuleBased.WithConfidenceAppend | gemini_sre_agent/source_control/error_handling/classification_algorithms.py:106-110 | the rules of one confidence in two lists joined are those of the first list, then those of the second |
| RuleBased.RatioBounds | gemini_sre_agent/source_control/error_handling/classification_algorithms.py:153-160 | a confidence that clears the threshold lies in [0.3, 1] |
| RuleBased.NewRulesSound | gemini_sre_agent/source_control/error_handling/classification_algorithms.py:92-110 | every new rule is a library pattern for a training type, clears 30% on that type's messages, and has its match fraction in [0.3, 1] as confidence |
| RuleBased.NewRulesComplete | gemini_sre_agent/source_control/error_handling/classification_algorithms.py:92-110 | every library pattern that clears 30% on a training type's messages becomes a rule for that type |
| RuleBased.FitRulesSound | gemini_sre_agent/source_control/error_handling/classification_algorithms.py:79-110 | every rule after fitting was there before or is a sound new rule |
| RuleBased.FitKeepsRules | gemini_sre_agent/source_control/error_handling/classification_algorithms.py:79-110 | fitting loses no old or new rule |
| RuleBased.FitRulesComplete | gemini_sre_agent/source_control/error_handling/classification_algorithms.py:79-110 | fitting adds a rule for every pattern that clears the threshold on a training type |
| RuleBased.FirstMatching | gemini_sre_agent/source_control/error_handling/classification_algorithms.py:191-194 | the first rule whose pattern matches, or none exactly when no rule matches |
| RuleBased.NoMatchingWithConfidence | gemini_sre_agent/source_control/error_handling/classification_algorithms.py:200-202 | with no matching rule no pattern is collected |
| RuleBased.FirstMatchWins | gemini_sre_agent/source_control/error_handling/classification_algorithms.py:185-202 | over sorted positive rules, the first matching rule decides type and confidence, and the evidence is every matching pattern of that confidence; no match leaves no type |
| RuleBased.NoMatchScan | gemini_sre_agent/source_control/error_handling/classification_algorithms.py:185-202 | when no rule matches, the scan ends with no type, 0.0 and no evidence |
| RuleBased.FirstMatchScan | gemini_sre_agent/source_control/error_handling/classification_algorithms.py:191-202 | when some rule matches, the scan ends with the first match's type and confidence and every equally confident matching pattern |
| RuleBased.ScanPath | gemini_sre_agent/source_control/error_handling/classification_algorithms.py:198-202 | the classification path is the matched patterns, each prefixed `matched_pattern:` |
| RuleBased.Predict | gemini_sre_agent/source_control/error_handling/classification_algorithms.py:180-223 | fails exactly before fitting; the suggested actions follow the result's metadata |
| RuleBased.FitWellFormed | gemini_sre_agent/source_control/error_handling/classification_algorithms.py:79-110 | fitting keeps the rules sorted with confidences in [0.3, 1] |
| RuleBased.PredictOutcome | gemini_sre_agent/source_control/error_handling/classification_algorithms.py:180-257 | a matching rule decides (type, confidence, evidence, registry metadata); else the first keyword decides at 0.5; else UNKNOWN_ERROR at 0.0 with the default actions |
| RuleBased.ProbaScanKeys | gemini_sre_agent/source_control/error_handling/classification_algorithms.py:302-307 | the probability keys are the start keys plus every matching rule's type |
| RuleBased.ProbaScanBounds | gemini_sre_agent/source_control/error_handling/classification_algorithms.py:302-307 | probabilities never decrease, and each matching rule's type gets at least its confidence |
| RuleBased.ProbaScanAttained | gemini_sre_agent/source_control/error_handling/classification_algorithms.py:302-307 | each probability is a start value or the confidence of a matching rule of that type |
| RuleBased.PredictProba | gemini_sre_agent/source_control/error_handling/classification_algorithms.py:296-309 | fails exactly before fitting; keys are the predicted type plus the matching rules' types, each the largest of the prediction's confidence and its matching rules' confidences |
| RuleBased.ProbaScanFrom | gemini_sre_agent/source_control/error_handling/classification_algorithms.py:298-309 | starting from the prediction, the keys are its type plus the matching types, each value attained and maximal |
| RuleBased.ConfidenceBounds | gemini_sre_agent/source_control/error_handling/classification_algorithms.py:180-309 | after fitting, the predicted confidence and every probability lie in [0, 1] |
| RuleBased.Score | gemini_sre_agent/source_control/error_handling/classification_algorithms.py:311-324 | fails before fitting and on unequal lists; 0.0 on no data; otherwise the number of messages whose rule-based prediction is the true type, over the number of messages |
| PatternBased.NewClassifier | gemini_sre_agent/source_control/error_handling/classification_algorithms.py:330-336 | a fresh classifier has its name, no patterns and is not fitted |
| PatternBased.Signals | gemini_sre_agent/source_control/error_handling/classification_algorithms.py:397-405 | the seven weighted regex signals |
| PatternBased.PhrasesEndingFrom | gemini_sre_agent/source_control/error_handling/classification_algorithms.py:385-388 | the phrases starting at a word are exactly its joined runs of up to three words longer than five characters |
| PatternBased.PhrasesFrom | gemini_sre_agent/source_control/error_handling/classification_algorithms.py:384-388 | the phrases from a position on are exactly the qualifying runs starting there or later |
| PatternBased.MessagePhrases | gemini_sre_agent/source_control/error_handling/classification_algorithms.py:383-388 | a message's phrases are exactly its qualifying runs of one to three words |
| PatternBased.PhraseCountsAreOccurrences | gemini_sre_agent/source_control/error_handling/classification_algorithms.py:378-390 | each phrase is counted once per occurrence over all messages, phrases in first-seen order |
| PatternBased.SelectCountsOccurrences | gemini_sre_agent/source_control/error_handling/classification_algorithms.py:388 | counting a phrase's entries counts its occurrences |
| PatternBased.PhrasePatterns | gemini_sre_agent/source_control/error_handling/classification_algorithms.py:363-368 | a phrase becomes a pattern exactly when its count is at least 30% of the messages, with confidence count/len |
| PatternBased.SignalPatterns | gemini_sre_agent/source_control/error_handling/classification_algorithms.py:407-411 | a signal becomes a pattern exactly when it matches at least one message, with confidence match fraction × weight |
| PatternBased.PhraseConfidences | gemini_sre_agent/source_control/error_handling/classification_algorithms.py:363-368 | every phrase pattern has confidence at least 0.3 |
| PatternBased.SignalConfidences | gemini_sre_agent/source_control/error_handling/classification_algorithms.py:407-411 | every signal pattern is a signal's regex with confidence in (0, its weight] |
| PatternBased.FromSignalBounds | gemini_sre_agent/source_control/error_handling/classification_algorithms.py:408-411 | a matched signal's confidence lies in (0, weight] |
| PatternBased.AtLeastThreeTenths | gemini_sre_agent/source_control/error_handling/classification_algorithms.py:364-366 | a phrase clearing the threshold has confidence at least 0.3 |
| PatternBased.SignalConfidenceBounds | gemini_sre_agent/source_control/error_handling/classification_algorithms.py:410 | fraction × weight lies in (0, weight] |
| PatternBased.Fit | gemini_sre_agent/source_control/error_handling/classification_algorithms.py:338-355 | fails exactly on unequal lists; otherwise fitted under the same name |
| PatternBased.FitLookup | gemini_sre_agent/source_control/error_handling/classification_algorithms.py:343-352 | after fitting, each training type maps to the patterns learned from its messages; every other type keeps its old entry |
| PatternBased.FitKeyOrder | gemini_sre_agent/source_control/error_handling/classification_algorithms.py:343-352 | after fitting, the types learned before keep their positions and each newly trained type follows, in order of first occurrence in the training data |
| PatternBased.AnyMatches | gemini_sre_agent/source_control/error_handling/classification_algorithms.py:453-457 | true exactly when some compiled pattern of the type matches |
| PatternBased.TypeScoreIsSum | gemini_sre_agent/source_control/error_handling/classification_algorithms.py:448-457 | a type's score is the sum of all its pattern confidences when any of its patterns matches, else 0.0 |
| PatternBased.TypeScanSum | gemini_sre_agent/source_control/error_handling/classification_algorithms.py:451-457 | the inner loops add each listed confidence once exactly when some compiled pattern matches |
| PatternBased.BestIsFirstArgmax | gemini_sre_agent/source_control/error_handling/classification_algorithms.py:447-463 | the scan picks the first type with the greatest positive score, or none when no score is positive |
| PatternBased.ArgmaxReplaced | gemini_sre_agent/source_control/error_handling/classification_algorithms.py:459-463 | a strictly greater score replaces the best |
| PatternBased.ArgmaxKept | gemini_sre_agent/source_control/error_handling/classification_algorithms.py:459-463 | a score that is not greater keeps the best |
| PatternBased.ArgmaxFromNone | gemini_sre_agent/source_control/error_handling/classification_algorithms.py:459-463 | the first positive score becomes the best |
| PatternBased.NonePositiveKept | gemini_sre_agent/source_control/error_handling/classification_algorithms.py:459-463 | a non-positive score leaves no best |
| PatternBased.Classify | gemini_sre_agent/source_control/error_handling/classification_algorithms.py:441-483 | reports the best-scoring type (else UNKNOWN_ERROR), confidence in [0, 1], the registry metadata of that type, and a path of the matched patterns prefixed `pattern_match:` |
| PatternBased.Predict | gemini_sre_agent/source_control/error_handling/classification_algorithms.py:436-439 | fails exactly before fitting |
| PatternBased.PredictOutcome | gemini_sre_agent/source_control/error_handling/classification_algorithms.py:436-483 | no positive score gives UNKNOWN_ERROR at 0.0; otherwise the first greatest-scoring type with min(score, 1.0) and its pattern strings |
| PatternBased.PredictProba | gemini_sre_agent/source_control/error_handling/classification_algorithms.py:511-527 | no learned patterns give an empty map |
| PatternBased.ProbaScanSpec | gemini_sre_agent/source_control/error_handling/classification_algorithms.py:515-525 | keys are exactly the types with a positive score, each valued min(score, 1.0) |
| PatternBased.FitWellFormed | gemini_sre_agent/source_control/error_handling/classification_algorithms.py:338-355 | fitting keeps the pattern dictionary's keys distinct |
| PatternBased.PredictProbaOutcome | gemini_sre_agent/source_control/error_handling/classification_algorithms.py:511-527 | the probabilities are exactly the positively scoring types, each at min(score, 1.0) |
| PatternBased.ProbaBounds | gemini_sre_agent/source_control/error_handling/classification_algorithms.py:524-525 | every probability lies in [0, 1] |
| PatternBased.Score | gemini_sre_agent/source_control/error_handling/classification_algorithms.py:529-541 | fails before fitting and on unequal lists; 0.0 on no data; otherwise the number of messages whose predicted type is the true type, over the number of messages |
| Hybrid.NewClassifier | gemini_sre_agent/source_control/error_handling/classification_algorithms.py:548-555 | a fresh hybrid owns unfitted sub-classifiers named `name_rule` and `name_pattern` |
| Hybrid.Fit | gemini_sre_agent/source_control/error_handling/classification_algorithms.py:557-565 | fails exactly on unequal lists; otherwise the hybrid and both parts are fitted |
| Hybrid.FitFitsBoth | gemini_sre_agent/source_control/error_handling/classification_algorithms.py:561-562 | the parts are fitted as each classifier's own `fit` does |
| Hybrid.FitWellFormed | gemini_sre_agent/source_control/error_handling/classification_algorithms.py:557-565 | fitting keeps both parts well formed |
| Hybrid.BlendBetween | gemini_sre_agent/source_control/error_handling/classification_algorithms.py:577-580 | 0.4 a + 0.6 b lies between a and b |
| Hybrid.Combine | gemini_sre_agent/source_control/error_handling/classification_algorithms.py:577-596 | the confidence is 0.4 × rule + 0.6 × pattern; the base is the rule result iff its confidence is strictly greater; the lists are the base's followed by the pattern result's (doubled when the base is the pattern result); pattern metadata wins when present |
| Hybrid.CombineConfidence | gemini_sre_agent/source_control/error_handling/classification_algorithms.py:577-588 | the 0.4 / 0.6 blend lies between the two confidences |
| Hybrid.Predict | gemini_sre_agent/source_control/error_handling/classification_algorithms.py:567-575 | fails exactly when the hybrid or either part is unfitted |
| Hybrid.PredictOutcome | gemini_sre_agent/source_control/error_handling/classification_algorithms.py:567-596 | a fitted hybrid reports confidence 0.4 × rule + 0.6 × pattern, in [0, 1] and between the two, with the type of the strictly more confident side, ties going to the pattern side |
| Hybrid.MetadataFollowsPattern | gemini_sre_agent/source_control/error_handling/classification_algorithms.py:591 | when the pattern side's type is registered, the hybrid's metadata is that type's record |
| Hybrid.CombineAsWritten | gemini_sre_agent/source_control/error_handling/classification_algorithms.py:583-591 | as written, the merge overwrites the registry's stored record of the rule side's type with the pattern side's record when the rule side wins and both carry metadata, and leaves the category, severity and retryability indexes unchanged |
| Hybrid.WriteThroughBreaksConsistency | gemini_sre_agent/source_control/error_handling/classification_algorithms.py:591 | when the overwritten and the copied records disagree on retryability, the registry's retryability index no longer matches its records |
| Hybrid.TimeoutMergeBreaksRegistry | gemini_sre_agent/source_control/error_handling/classification_algorithms.py:583-591 | a rule-side TIMEOUT_ERROR at 0.5 merged with a pattern-side UNKNOWN_ERROR at 0.0 leaves timeout_error listed as retryable with a record that says it is not |
| Hybrid.CombineCopying | gemini_sre_agent/source_control/error_handling/classification_algorithms.py:583-596 | the merge with the metadata copied gives the same merged result and leaves every stored record, and so every consistent registry, as it was |
| Hybrid.PredictProba | gemini_sre_agent/source_control/error_handling/classification_algorithms.py:598-615 | fails exactly when the rule part is unfitted; keys are the union of both sides' keys |
| Hybrid.BlendMaps | gemini_sre_agent/source_control/error_handling/classification_algorithms.py:604-613 | the blended keys are the union of both maps' keys; a key on both sides gets 0.4 × rule + 0.6 × pattern, a key on one side only 0.4 or 0.6 times its value |
| Hybrid.BlendMapsBounds | gemini_sre_agent/source_control/error_handling/classification_algorithms.py:604-613 | blended values lie in [0, 1]; a key on both sides gets 0.4 × rule + 0.6 × pattern, a key on one side only 0.4 or 0.6 times its value |
| Hybrid.PredictProbaOutcome | gemini_sre_agent/source_control/error_handling/classification_algorithms.py:598-615 | the hybrid's keys are the union of both sides' keys; a key on both sides gets 0.4 × rule + 0.6 × pattern, a key on one side only that side's weight times its value; all lie in [0, 1] |
| Hybrid.Score | gemini_sre_agent/source_control/error_handling/classification_algorithms.py:617-629 | fails unless the hybrid and both halves are fitted, and on unequal lists; 0.0 on no data; otherwise the number of messages whose merged type is the true type, over the number of messages |
| Hybrid.CreateClassifier | gemini_sre_agent/source_control/error_handling/classification_algorithms.py:637-646 | succeeds exactly for the three available names, creating an unfitted classifier of that kind with the given or default name; any other name fails |
| Hybrid.AvailableAlgorithms | gemini_sre_agent/source_control/error_handling/classification_algorithms.py:649-651 | three algorithm names, each once |
| Hybrid.CreateErrorClassification | gemini_sre_agent/source_control/error_handling/classification_algorithms.py:654-669 | keeps the type and the details and never opens the circuit; with metadata it copies the record's retryability, delay and retry count, and without metadata it is not retryable with 0.0 and 0 |
| Hybrid.ConversionAgreesWithRegistry | gemini_sre_agent/source_control/error_handling/classification_algorithms.py:656-661 | whenever a result carries its type's registry metadata, the converted retry policy equals the registry helpers' answers |
| Hybrid.PatternResultsConvertFaithfully | gemini_sre_agent/source_control/error_handling/classification_algorithms.py:654-669 | a pattern prediction converts to the registry's retry policy for its type |
| Mixing.AllStrategies | gemini_sre_agent/llm/mixing/mixing_strategies.py:25-33 | the six strategies, each once |
| Mixing.AllStrategiesListed | gemini_sre_agent/llm/mixing/mixing_strategies.py:25-33 | every strategy is listed |
| Mixing.DefaultConfig | gemini_sre_agent/llm/mixing/mixing_strategies.py:36-49 | the defaults: weight 1.0, 4000 tokens, temperature 0.7, 30 s timeout, 2 retries, no specialisation or cost limit |
| Mixing.RequestFor | gemini_sre_agent/llm/mixing/mixing_strategies.py:128-133 | the request carries the prompt and the config's model type, token limit and temperature |
| Mixing.ExecuteSingleModel | gemini_sre_agent/llm/mixing/mixing_strategies.py:114-144 | a missing provider fails; otherwise the generation's response, or a timeout or generation failure |
| Mixing.Slot | gemini_sre_agent/llm/mixing/mixing_strategies.py:103-110 | a failure becomes None and a response is kept |
| Mixing.ExecuteSequential | gemini_sre_agent/llm/mixing/mixing_strategies.py:159-170 | one slot per config, in order, each None exactly when its call failed; later configs still run |
| Mixing.ExecuteParallel | gemini_sre_agent/llm/mixing/mixing_strategies.py:92-112 | one slot per config |
| Mixing.ParallelIsSequential | gemini_sre_agent/llm/mixing/mixing_strategies.py:92-112 | with outcomes fixed by the oracle, the gathered results equal the sequential ones, aligned with the configs |
| Mixing.CascadeFrom | gemini_sre_agent/llm/mixing/mixing_strategies.py:220-237 | at most one slot per config, every slot but the last a response, and a shorter output ends in None |
| Mixing.CascadeUnfold | gemini_sre_agent/llm/mixing/mixing_strategies.py:220-231 | a cascade that goes on past its first slot got a response there and continues from the next prompt |
| Mixing.ExecuteCascade | gemini_sre_agent/llm/mixing/mixing_strategies.py:216-237 | a run of responses, possibly followed by a single None, of length at most n |
| Mixing.CascadeFailFast | gemini_sre_agent/llm/mixing/mixing_strategies.py:232-235 | a None can only be the last slot, and a cascade without failure runs every config |
| Mixing.LastNonEmpty | gemini_sre_agent/llm/mixing/mixing_strategies.py:228-231 | the most recent non-empty content: every later content is empty; none exactly when all are empty |
| Mixing.Contents | gemini_sre_agent/llm/mixing/mixing_strategies.py:228 | each slot's content, empty for a failed slot |
| Mixing.CascadePrompts | gemini_sre_agent/llm/mixing/mixing_strategies.py:218-231 | model i gets the original prompt until some response has content, then `Previous result: c` + original task for the latest such content c |
| Mixing.CascadeFromPrompts | gemini_sre_agent/llm/mixing/mixing_strategies.py:218-231 | the same prompt threading from any starting prompt |
| Mixing.CascadePromptAt | gemini_sre_agent/llm/mixing/mixing_strategies.py:218-231 | slot i was called with the prompt determined by the earlier slots |
| Mixing.CascadeShift | gemini_sre_agent/llm/mixing/mixing_strategies.py:218-231 | the prompt threading of the rest of the cascade shifts by one slot |
| Mixing.CascadeStep | gemini_sre_agent/llm/mixing/mixing_strategies.py:228-231 | a response feeds forward exactly as the next prompt says |
| Mixing.Keyed | gemini_sre_agent/llm/mixing/mixing_strategies.py:350-351 | each config keyed by `specialized_for` |
| Mixing.RunGroupsIsFlatten | gemini_sre_agent/llm/mixing/mixing_strategies.py:325-340 | running the groups in turn, general ones sequentially and specialised ones in parallel, gives the sequential run of their concatenation |
| Mixing.GroupBySpecialization | gemini_sre_agent/llm/mixing/mixing_strategies.py:344-356 | one group per specialization in order of first appearance, each holding that specialization's configs in input order; together the groups hold every config once |
| Mixing.ExecuteHierarchical | gemini_sre_agent/llm/mixing/mixing_strategies.py:313-340 | the output is the per-config outcomes of the configs regrouped by specialization, one slot per config |
| Mixing.SequentialAppend | gemini_sre_agent/llm/mixing/mixing_strategies.py:159-170 | running two lists in sequence runs their concatenation |
| Mixing.AlignedStrategies | gemini_sre_agent/llm/mixing/mixing_strategies.py:80-307 | parallel, sequential, voting and weighted return one slot per config, slot i None exactly when call i failed |
| Mixing.SupportedStrategies | gemini_sre_agent/llm/mixing/mixing_strategies.py:391-399 | the strategies in `_executors` key order (PARALLEL, SEQUENTIAL, CASCADE, VOTING, WEIGHTED, HIERARCHICAL), every strategy once, so `create_executor` never raises |
| Mixing.Execute | gemini_sre_agent/llm/mixing/mixing_strategies.py:362-389 | every strategy returns at most one slot per config, and exactly one unless it is a cascade |
| StrategyMonitor.Reset | gemini_sre_agent/llm/mixing/mixing_strategies.py:410-420 | every strategy's counters and figures are zero |
| StrategyMonitor.Record | gemini_sre_agent/llm/mixing/mixing_strategies.py:422-451 | one more execution and exactly one more success or failure, time added, average and rate recomputed from the totals; other strategies unchanged |
| StrategyMonitor.ResetValid | gemini_sre_agent/llm/mixing/mixing_strategies.py:405-420 | a reset monitor satisfies the invariant |
| StrategyMonitor.RecordPreservesValid | gemini_sre_agent/llm/mixing/mixing_strategies.py:436-451 | recording keeps total = successes + failures and the derived figures exact, and the rate lies in [0, 100] |
| StrategyMonitor.RateBounds | gemini_sre_agent/llm/mixing/mixing_strategies.py:449-451 | a success rate lies in [0, 100] |
| StrategyMonitor.Replay | gemini_sre_agent/llm/mixing/mixing_strategies.py:422-451 | every strategy has metrics after any history |
| StrategyMonitor.ReplayCounts | gemini_sre_agent/llm/mixing/mixing_strategies.py:436-443 | after any history a strategy's totals count its executions, its successes and sum its times |
| StrategyMonitor.ReplayValid | gemini_sre_agent/llm/mixing/mixing_strategies.py:405-451 | the invariant holds after any history |
| StrategyMonitor.BestOf | gemini_sre_agent/llm/mixing/mixing_strategies.py:484-499 | a chosen strategy has run |
| StrategyMonitor.BestOfIsFirstBest | gemini_sre_agent/llm/mixing/mixing_strategies.py:484-499 | none exactly when no listed strategy ran; otherwise the first with the greatest score |
| StrategyMonitor.StrategyScore | gemini_sre_agent/llm/mixing/mixing_strategies.py:489-492 | a percentage success rate and an average time of at most ten seconds score in [0, 100] |
| StrategyMonitor.ScorePrefers | gemini_sre_agent/llm/mixing/mixing_strategies.py:489-492 | a higher success rate scores higher, and so does a lower average execution time |
| StrategyMonitor.GetBestStrategy | gemini_sre_agent/llm/mixing/mixing_strategies.py:474-499 | a strategy it names has run at least once |
| StrategyMonitor.GetBestStrategyOutcome | gemini_sre_agent/llm/mixing/mixing_strategies.py:474-499 | None exactly when no strategy ran; otherwise a strategy that ran with the greatest score, the first in declaration order on ties |
| ServiceMetrics.IncrementSpec | gemini_sre_agent/llm/service_base.py:233-236 | a usage increment adds one to its key, leaves the other keys, and adds one to the sum |
| ServiceMetrics.Increment | gemini_sre_agent/llm/service_base.py:233-236 | the key's count and the sum of all counts grow by one |
| ServiceMetrics.IncrementOthers | gemini_sre_agent/llm/service_base.py:233-236 | other keys keep their counts |
| ServiceMetrics.IncrementKeys | gemini_sre_agent/llm/service_base.py:233-236 | a new key is appended, an existing one keeps its place |
| ServiceMetrics.IncrementKeepsDistinct | gemini_sre_agent/llm/service_base.py:233-236 | the dictionary's keys stay distinct |
| ServiceMetrics.IncrementKeepsPositive | gemini_sre_agent/llm/service_base.py:233-236 | every stored count stays positive |
| ServiceMetrics.Update | gemini_sre_agent/llm/service_base.py:195-244 | one more request and exactly one more success or failure; min and max move to include the latency; the new mean times the count is the old sum plus the latency; the used model, provider and operation each count one more and no other count changes |
| ServiceMetrics.UpdatePreservesConsistent | gemini_sre_agent/llm/service_base.py:212-244 | an update keeps total = successes + failures and each usage dictionary summing to the total |
| ServiceMetrics.ReplayConsistent | gemini_sre_agent/llm/service_base.py:212-244 | the invariant holds after any sequence of updates |
| ServiceMetrics.ReplayCounts | gemini_sre_agent/llm/service_base.py:212-217 | the counters count the updates and the successful ones |
| ServiceMetrics.ReplayMean | gemini_sre_agent/llm/service_base.py:225-230 | the incremental average is the arithmetic mean of all recorded latencies |
| ServiceMetrics.UpdateMean | gemini_sre_agent/llm/service_base.py:225-230 | one incremental step turns the mean of n latencies into the mean of n + 1 |
| ServiceMetrics.ReplayBounds | gemini_sre_agent/llm/service_base.py:220-223 | min is +inf and max 0 before any update; afterwards min ≤ every latency ≤ max and max ≥ 0; min is attained, and max is attained unless every latency is negative, when it stays 0.0 |
| ServiceMetrics.ReplayMinBounds | gemini_sre_agent/llm/service_base.py:220-221 | the minimum is +inf before any update, afterwards finite, at most every latency, and one of them |
| ServiceMetrics.ReplayMaxBounds | gemini_sre_agent/llm/service_base.py:222-223 | the maximum is 0.0 before any update, at least every latency and 0.0, and one of the latencies unless it is still 0.0 |
| ServiceMetrics.ReplayModelUsage | gemini_sre_agent/llm/service_base.py:233-236 | a model's usage count is its number of requests |
| ServiceMetrics.SelectionKey | gemini_sre_agent/llm/service_base.py:257 | the key is the model name, a colon and the strategy value |
| ServiceMetrics.UpdateSelectionStats | gemini_sre_agent/llm/service_base.py:248-258 | only the `model:strategy` counter grows, by one; service metrics unchanged |
| ServiceMetrics.ResetMetrics | gemini_sre_agent/llm/service_base.py:281-285 | fresh metrics (0 requests, mean 0.0, min +inf, max 0.0) and no selection counts |
| ServiceMetrics.HealthCheckReport | gemini_sre_agent/llm/service_base.py:287-305 | status `healthy`, the request count, the average latency, and as available models and providers the number of keys of the two usage dictionaries |
| ServiceMetrics.HealthSuccessRate | gemini_sre_agent/llm/service_base.py:296-299 | successes / max(1, total) lies in [0, 1], is 0.0 with no requests and the success fraction otherwise |
| ServiceMetrics.HealthCountsDistinctModels | gemini_sre_agent/llm/service_base.py:301 | `available_models` is the number of distinct models among the recorded requests |

## Left out

- Concurrency: `asyncio.gather`, the semaphore in parallel execution and the `asyncio.wait_for` timeout are not modelled as such. A model call's outcome is fixed by `Providers`, so parallel execution equals sequential execution (`Mixing.ParallelIsSequential`). Exceptions that `gather` hands back become failed (`None`) slots.
- Regular expressions, lower-casing and word splitting are the `TextOracle` parameters. A pattern that fails to compile (`re.error`, caught and logged by `_compile_patterns` and `_compile_patterns_for_type`) is treated like one that never matches.
- Logging, `time.time()`, `datetime.now()`, `last_updated` and `_last_selection_time` are left out. They only record timestamps and messages, and nothing modelled reads them.
- IEEE-754 arithmetic: confidences, weights, latencies and means are exact reals. In particular `matches >= len(messages) * 0.3` is modelled as the exact comparison `10 * matches >= 3 * len(messages)`, without the rounding of the float product. The incremental mean `(avg * (n - 1) + x) / n` is likewise exact here, which is what `ServiceMetrics.ReplayMean` relies on.
- The texts of suggested actions are constructors of `Classification.Action` (`RetryAfter(seconds)`, `MaximumRetries(count)`, …) rather than formatted f-strings. The description, keywords and patterns fields of `ErrorTypeMetadata` are left out because no modelled operation reads them.
- Error types are plain strings (their `.value`). The `ErrorType` enum members themselves (`gemini_sre_agent/source_control/error_handling/core.py`) are not part of this model. Enum values such as `MixingStrategy.value` and `SelectionStrategy.value` are likewise strings or constructors.
- `TrainingData.contexts`, the `context` argument of `predict` and `labels` are ignored by every modelled algorithm and are left out.
- `RuleBased.RuleClassifier.library`: the seventeen common patterns are a field of the classifier that every constructor sets to `RuleBased.LibraryPatterns()`. This does not change behaviour; it only keeps proofs small.
- The three `score` methods share `Classification.Score`, which receives the classifier's prediction for each message; `RuleBased.Score`, `PatternBased.Score` and `Hybrid.Score` state the result in terms of their own classifier's prediction.
- Hybrid.Score: a hybrid marked fitted whose halves are not fitted fails with `NotFitted` even when there is nothing to predict, where the source returns 0.0 for empty lists or raises on the length mismatch. `fit` never produces such a hybrid.
- The abstract `generate_*` methods of the service base class, its `ModelScorer` and `PerformanceMonitor` collaborators, and `get_selection_stats`' `performance_cache_stats` are outside the modelled core.
- Getters that only return copies (`get_strategy_metrics`, `get_all_metrics`, `get_retryable_errors`, `get_non_retryable_errors`, `get_all_error_types`) are the datatype fields themselves.
- ErrorTypes.GetErrorsByCategory, ErrorTypes.GetErrorsBySeverity: `get_errors_by_category` and `get_errors_by_severity` return the registry's own `_category_mappings[c]` and `_severity_mappings[s]` sets, not copies. A caller that changes the returned set changes the registry's index, and `ErrorTypes.Consistent` no longer holds. Values in the model are immutable, so that aliasing is not modelled.
- `get_service_metrics` returns the live `ServiceMetrics` object rather than a copy, so a caller can change the service's counters through it. Values in the model are immutable, and that aliasing is not modelled.
- The registry is immutable in the model: `GetErrorMetadata` and the other module-level helpers always read the registry that `_initialize_metadata` builds. The one place the source writes into it, the hybrid merge, is modelled separately by `Hybrid.CombineAsWritten` (see Findings). `Hybrid.Combine` and `Hybrid.Predict` follow the corrected, copying reading.
- `_update_service_metrics` ends by stamping `last_updated`; `_update_selection_stats` records and `reset_metrics` clears `_last_selection_time`. Both hold clock readings and are not kept.
- `create_classifier` passes `**kwargs` to the constructor. Only `name` is modelled, since no constructor reads another keyword.
- `Mixing.Contents`: the cascade reads `response.content` of each result, and a failed call gives no content. A failed slot is modelled as the empty string; that slot is always the last one, so nothing reads it.
- Hashing in `dict` and `set` is left out. `Mixing.Slot` and the map operations stand for the lookups.
- The source's comments and the code disagree in a few places. The model follows the code in each case:
  - `_extract_common_substrings` forms phrases of one to three words (`range(i + 1, min(i + 4, len(words) + 1))`), not two to four.
  - Hierarchical execution runs its groups in the order their specialisations are first seen, with the general group wherever it first occurs.
  - Pattern-based `predict_proba` performs no fitted check.
  - Hybrid `predict_proba` fails only when the rule classifier is unfitted, because only the rule classifier's `predict` raises on that path.
- The `Providers` oracle decides a call's outcome from the provider name, the request and the timeout. Retries of a model call (`retry_attempts`) are not performed by the executors and are not modelled.
- PatternBased.PredictProba: its own contract gives the empty case only; the keys and values are stated by `PatternBased.PredictProbaOutcome` and `PatternBased.ProbaBounds`.
- Hybrid.PredictProba: its own contract gives the failure case and the key set; the blended values are stated by `Hybrid.PredictProbaOutcome`.

## Findings

| source | as written | input that shows it | evidently intended | confidence | as-written member | corrected member |
|---|---|---|---|---|---|---|
| gemini_sre_agent/source_control/error_handling/classification_algorithms.py:591 | The rule-based result's `metadata` is `metadata.__dict__`, the attribute dictionary of the registry's own record. When the rule side wins, `best_result.metadata.update(pattern_result.metadata)` copies the pattern side's fields into that stored record. The retryable, category and severity indexes are not updated. | A hybrid fitted only on `(["disk full"], ["disk_space_error"])` predicts `"timeout"`. The rule side answers TIMEOUT_ERROR at 0.5 from the keyword table; the pattern side answers UNKNOWN_ERROR at 0.0. Afterwards the global registry still lists `timeout_error` as retryable, but its record says it is not, and `is_retryable_error("timeout_error")` turns False. | The merged result takes a copy of the pattern side's metadata and the registry is left unchanged. | not executed | Hybrid.CombineAsWritten | Hybrid.CombineCopying |
