/**
  The mixing executors: each runs a list of model configurations against a
  prompt and returns one optional response per call made. The provider
  factory and the providers' generation are an oracle; scheduling,
  semaphores and timers are not modelled, so an executor is a pure function
  of the oracle's answers.
*/
module Mixing {
  import opened Outcomes
  import Grouping

  datatype MixingStrategy = Parallel | Sequential | Cascade | Voting | Weighted | Hierarchical

  /** The strategies in declaration order, which is also `_executors`' key order. */
  function AllStrategies(): (ss: seq<MixingStrategy>)
    ensures |ss| == 6 && Grouping.Distinct(ss)
  {
    [Parallel, Sequential, Cascade, Voting, Weighted, Hierarchical]
  }

  /** The list holds every strategy. */
  lemma AllStrategiesListed(s: MixingStrategy)
    ensures s in AllStrategies()
  {
    var ss := AllStrategies();
    match s
    case Parallel => assert ss[0] == s;
    case Sequential => assert ss[1] == s;
    case Cascade => assert ss[2] == s;
    case Voting => assert ss[3] == s;
    case Weighted => assert ss[4] == s;
    case Hierarchical => assert ss[5] == s;
  }

  /** `ModelType` is defined in llm/base.py, which is not part of this model; only its identity matters here. */
  type ModelType = string

  datatype ModelConfig = ModelConfig(
    provider: string,
    model: string,
    modelType: ModelType,
    weight: real,
    maxTokens: int,
    temperature: real,
    timeout: int,
    retryAttempts: int,
    specializedFor: Option<string>,
    costLimit: Option<real>)

  /** A configuration with every defaulted field at its default. */
  function DefaultConfig(provider: string, model: string, modelType: ModelType): (c: ModelConfig)
    ensures c.provider == provider && c.model == model && c.modelType == modelType
    ensures c.weight == 1.0 && c.maxTokens == 4000 && c.temperature == 7.0 / 10.0
    ensures c.timeout == 30 && c.retryAttempts == 2
    ensures c.specializedFor.None? && c.costLimit.None?
  {
    ModelConfig(provider, model, modelType, 1.0, 4000, 0.7, 30, 2, None, None)
  }

  /** `LLMRequest`, with the fields the executors set. */
  datatype Request = Request(prompt: string, modelType: ModelType, maxTokens: int, temperature: real)

  datatype Response = Response(content: string)

  /** What awaiting `provider.generate(request)` under `wait_for` comes to. */
  datatype Generation = Generated(response: Response) | TimedOut | Raised

  /**
    The provider factory: which providers `get_provider` returns, and what
    each provider's generation yields for a request within a timeout.
  */
  datatype Providers = Providers(available: string -> bool, generate: (string, Request, int) -> Generation)

  /** The exceptions `_execute_single_model` raises. */
  datatype ExecutionError =
    | ProviderUnavailable(provider: string)
    | ModelTimedOut(provider: string, model: string, timeout: int)
    | GenerationFailed

  /** The request `_execute_single_model` builds from a configuration. */
  function RequestFor(config: ModelConfig, prompt: string): (r: Request)
    ensures r.prompt == prompt && r.modelType == config.modelType
    ensures r.maxTokens == config.maxTokens && r.temperature == config.temperature
  {
    Request(prompt, config.modelType, config.maxTokens, config.temperature)
  }

  /**
    `_execute_single_model`: a missing provider fails before any request is
    made; otherwise the configured request is sent with the configured timeout.
  */
  function ExecuteSingleModel(p: Providers, config: ModelConfig, prompt: string): (r: Result<Response, ExecutionError>)
    ensures !p.available(config.provider) ==> r == Err(ProviderUnavailable(config.provider))
    ensures p.available(config.provider) ==> match p.generate(config.provider, RequestFor(config, prompt), config.timeout)
      case Generated(response) => r == Ok(response)
      case TimedOut => r == Err(ModelTimedOut(config.provider, config.model, config.timeout))
      case Raised => r == Err(GenerationFailed)
  {
    if !p.available(config.provider) then Err(ProviderUnavailable(config.provider))
    else match p.generate(config.provider, RequestFor(config, prompt), config.timeout)
      case Generated(response) => Ok(response)
      case TimedOut => Err(ModelTimedOut(config.provider, config.model, config.timeout))
      case Raised => Err(GenerationFailed)
  }

  /** A call's slot in the output: the response, or None for any exception. */
  function Slot(r: Result<Response, ExecutionError>): (o: Option<Response>)
    ensures o.None? <==> r.Err?
    ensures o.Some? ==> o.value == r.value
  {
    match r
    case Ok(response) => Some(response)
    case Err(_) => None
  }

  // ---------------------------------------------------------------------------
  // Parallel, sequential, voting, weighted
  // ---------------------------------------------------------------------------

  /** `SequentialStrategyExecutor.execute`: every configuration in order; a failure leaves None and the loop goes on. */
  function ExecuteSequential(p: Providers, configs: seq<ModelConfig>, prompt: string): (rs: seq<Option<Response>>)
    ensures |rs| == |configs|
    ensures forall i | 0 <= i < |configs| :: rs[i] == Slot(ExecuteSingleModel(p, configs[i], prompt))
  {
    if configs == [] then [] else
      var rest := ExecuteSequential(p, configs[1..], prompt);
      assert forall i | 1 <= i < |configs| :: configs[i] == configs[1..][i - 1];
      [Slot(ExecuteSingleModel(p, configs[0], prompt))] + rest
  }

  /**
    `ParallelStrategyExecutor.execute`: all calls are gathered with their
    exceptions, and result `i` is aligned with configuration `i`.
  */
  function ExecuteParallel(p: Providers, configs: seq<ModelConfig>, prompt: string): (rs: seq<Option<Response>>)
    ensures |rs| == |configs|
  {
    var gathered := seq(|configs|, i requires 0 <= i < |configs| => ExecuteSingleModel(p, configs[i], prompt));
    seq(|gathered|, i requires 0 <= i < |gathered| => Slot(gathered[i]))
  }

  /** With the calls' outcomes fixed, gathering them concurrently gives what the sequential loop gives. */
  lemma ParallelIsSequential(p: Providers, configs: seq<ModelConfig>, prompt: string)
    ensures ExecuteParallel(p, configs, prompt) == ExecuteSequential(p, configs, prompt)
  {
  }

  // ---------------------------------------------------------------------------
  // Cascade
  // ---------------------------------------------------------------------------

  /** The prompt the next model receives after a response with non-empty content. */
  function Feed(content: string, original: string): string {
    "Previous result: " + content + "\n\nOriginal task: " + original
  }

  /** The cascade from `current` on: the first failure appends None and stops. */
  function CascadeFrom(p: Providers, configs: seq<ModelConfig>, original: string, current: string): (rs: seq<Option<Response>>)
    ensures |rs| <= |configs|
    ensures forall i | 0 <= i < |rs| - 1 :: rs[i].Some?
    ensures |rs| < |configs| ==> rs != [] && rs[|rs| - 1].None?
    ensures configs != [] ==> rs != []
  {
    if configs == [] then [] else
      match ExecuteSingleModel(p, configs[0], current)
      case Err(_) => [None]
      case Ok(response) => [Some(response)] + CascadeFrom(p, configs[1..], original, NextPrompt(current, original, response))
  }

  /** The prompt after one response: its content fed forward if non-empty, else the prompt unchanged. */
  function NextPrompt(current: string, original: string, response: Response): string {
    if response.content != "" then Feed(response.content, original) else current
  }

  /** A cascade that goes past its first slot got a response there and continues from the next prompt. */
  lemma CascadeUnfold(p: Providers, configs: seq<ModelConfig>, original: string, current: string)
    requires |CascadeFrom(p, configs, original, current)| > 1
    ensures ExecuteSingleModel(p, configs[0], current).Ok?
    ensures var response := ExecuteSingleModel(p, configs[0], current).value;
      CascadeFrom(p, configs, original, current)
        == [Some(response)] + CascadeFrom(p, configs[1..], original, NextPrompt(current, original, response))
  {
  }

  /** `CascadeStrategyExecutor.execute`. */
  function ExecuteCascade(p: Providers, configs: seq<ModelConfig>, prompt: string): (rs: seq<Option<Response>>)
    ensures |rs| <= |configs|
    ensures forall i | 0 <= i < |rs| - 1 :: rs[i].Some?
    ensures |rs| < |configs| ==> rs != [] && rs[|rs| - 1].None?
  {
    CascadeFrom(p, configs, prompt, prompt)
  }

  /**
    The cascade is fail-fast: a failed slot is the last one, and the cascade
    runs to the end whenever no slot failed.
  */
  lemma CascadeFailFast(p: Providers, configs: seq<ModelConfig>, prompt: string)
    ensures var rs := ExecuteCascade(p, configs, prompt);
      && (forall i | 0 <= i < |rs| && rs[i].None? :: i == |rs| - 1)
      && ((forall i | 0 <= i < |rs| :: rs[i].Some?) ==> |rs| == |configs|)
  {
  }

  /** The content of the last response with non-empty content, if any. */
  function LastNonEmpty(contents: seq<string>): (r: Option<string>)
    ensures r.Some? ==> r.value != "" && r.value in contents
    ensures r.None? <==> forall i | 0 <= i < |contents| :: contents[i] == ""
    ensures r.Some? ==> exists i | 0 <= i < |contents| ::
      contents[i] == r.value && forall j | i < j < |contents| :: contents[j] == ""
  {
    if contents == [] then None else
      match LastNonEmpty(contents[1..])
      case Some(c) =>
        var i :| 0 <= i < |contents[1..]| && contents[1..][i] == c
          && forall j | i < j < |contents[1..]| :: contents[1..][j] == "";
        assert forall j | i + 1 < j < |contents| :: contents[j] == contents[1..][j - 1];
        Some(c)
      case None =>
        assert forall i | 1 <= i < |contents| :: contents[i] == contents[1..][i - 1];
        if contents[0] != "" then Some(contents[0]) else None
  }

  /** The contents of the responses received so far (a failed slot, which ends a cascade, has none). */
  function Contents(rs: seq<Option<Response>>): (cs: seq<string>)
    ensures |cs| == |rs|
    ensures forall i | 0 <= i < |rs| :: cs[i] == if rs[i].Some? then rs[i].value.content else ""
  {
    seq(|rs|, i requires 0 <= i < |rs| => if rs[i].Some? then rs[i].value.content else "")
  }

  /**
    The prompt after some responses: the original task preceded by the most
    recent non-empty content, or the starting prompt when all were empty.
  */
  function PromptAfter(current: string, original: string, contents: seq<string>): string {
    match LastNonEmpty(contents)
    case Some(c) => Feed(c, original)
    case None => current
  }

  /**
    Model `i` of the cascade is called with the original prompt until some
    model answers with non-empty content, and from then on with the most
    recent such content followed by the original task; prompts never nest.
  */
  lemma CascadePrompts(p: Providers, configs: seq<ModelConfig>, prompt: string)
    ensures var rs := ExecuteCascade(p, configs, prompt);
      forall i | 0 <= i < |rs| ::
        rs[i] == Slot(ExecuteSingleModel(p, configs[i], PromptAfter(prompt, prompt, Contents(rs[..i]))))
  {
    CascadeFromPrompts(p, configs, prompt, prompt);
  }

  lemma CascadeFromPrompts(p: Providers, configs: seq<ModelConfig>, original: string, current: string)
    ensures var rs := CascadeFrom(p, configs, original, current);
      forall i | 0 <= i < |rs| ::
        rs[i] == Slot(ExecuteSingleModel(p, configs[i], PromptAfter(current, original, Contents(rs[..i]))))
  {
    var rs := CascadeFrom(p, configs, original, current);
    forall i | 0 <= i < |rs|
      ensures rs[i] == Slot(ExecuteSingleModel(p, configs[i], PromptAfter(current, original, Contents(rs[..i]))))
    {
      CascadePromptAt(p, configs, original, current, i);
    }
  }

  lemma {:induction false} CascadePromptAt(p: Providers, configs: seq<ModelConfig>, original: string, current: string, i: nat)
    requires i < |CascadeFrom(p, configs, original, current)|
    ensures var rs := CascadeFrom(p, configs, original, current);
      rs[i] == Slot(ExecuteSingleModel(p, configs[i], PromptAfter(current, original, Contents(rs[..i]))))
    decreases i
  {
    var rs := CascadeFrom(p, configs, original, current);
    if i == 0 {
      assert Contents(rs[..0]) == [];
    } else {
      CascadeUnfold(p, configs, original, current);
      var response := ExecuteSingleModel(p, configs[0], current).value;
      var next := NextPrompt(current, original, response);
      var rest := CascadeFrom(p, configs[1..], original, next);
      CascadePromptAt(p, configs[1..], original, next, i - 1);
      CascadeShift(p, configs, original, current, response, rest, i);
    }
  }

  /** What holds for slot `i - 1` of the rest of a cascade holds for slot `i` of the whole. */
  lemma CascadeShift(p: Providers, configs: seq<ModelConfig>, original: string, current: string,
                     response: Response, rest: seq<Option<Response>>, i: nat)
    requires 0 < i <= |rest| && i < |configs|
    requires rest[i - 1] == Slot(ExecuteSingleModel(p, configs[1..][i - 1],
      PromptAfter(NextPrompt(current, original, response), original, Contents(rest[..i - 1]))))
    ensures var rs := [Some(response)] + rest;
      rs[i] == Slot(ExecuteSingleModel(p, configs[i], PromptAfter(current, original, Contents(rs[..i]))))
  {
    var rs := [Some(response)] + rest;
    CascadeStep(current, original, response, rest, i - 1);
    assert rs[..i] == [Some(response)] + rest[..i - 1];
    assert configs[i] == configs[1..][i - 1];
  }

  /** One response further, the prompt is the one the next step starts from. */
  lemma CascadeStep(current: string, original: string, response: Response, rest: seq<Option<Response>>, k: nat)
    requires k <= |rest|
    ensures PromptAfter(current, original, Contents([Some(response)] + rest[..k]))
         == PromptAfter(NextPrompt(current, original, response), original, Contents(rest[..k]))
  {
    var cs := Contents([Some(response)] + rest[..k]);
    assert cs[1..] == Contents(rest[..k]);
  }

  // ---------------------------------------------------------------------------
  // Hierarchical
  // ---------------------------------------------------------------------------

  /** Each configuration keyed by its specialization. */
  function Keyed(configs: seq<ModelConfig>): (ks: seq<(Option<string>, ModelConfig)>)
    ensures |ks| == |configs|
    ensures forall i | 0 <= i < |configs| :: ks[i] == (configs[i].specializedFor, configs[i])
  {
    seq(|configs|, i requires 0 <= i < |configs| => (configs[i].specializedFor, configs[i]))
  }

  /**
    `_group_by_specialization`: one group per specialization in order of first
    appearance, holding that specialization's configurations in input order;
    together the groups hold every configuration once.
  */
  function GroupBySpecialization(configs: seq<ModelConfig>): (groups: Grouping.Groups<Option<string>, ModelConfig>)
    ensures Grouping.Keys(groups) == Grouping.FirstSeen(Grouping.Keys(Keyed(configs)))
    ensures forall i | 0 <= i < |groups| :: groups[i].1 == Grouping.Select(Keyed(configs), groups[i].0)
    ensures multiset(Grouping.Flatten(groups)) == multiset(configs)
    ensures |Grouping.Flatten(groups)| == |configs|
  {
    Grouping.GroupByPermutes(Keyed(configs));
    Grouping.GroupByIsReference(Keyed(configs));
    assert Grouping.Seconds(Keyed(configs)) == configs;
    Grouping.GroupBy(Keyed(configs))
  }

  /** `if specialization:` is false for None and for the empty string. */
  predicate IsGeneral(specialization: Option<string>) {
    specialization.None? || specialization.value == ""
  }

  /** Each group in turn: general groups sequentially, specialized groups in parallel. */
  function RunGroups(p: Providers, groups: Grouping.Groups<Option<string>, ModelConfig>, prompt: string): seq<Option<Response>> {
    if groups == [] then [] else
      var results := if IsGeneral(groups[0].0) then ExecuteSequential(p, groups[0].1, prompt)
                     else ExecuteParallel(p, groups[0].1, prompt);
      results + RunGroups(p, groups[1..], prompt)
  }

  /**
    `HierarchicalStrategyExecutor.execute`: the per-configuration outcomes of
    the configurations regrouped by specialization. It has one slot per
    configuration, but slot `i` need not belong to configuration `i`.
  */
  function ExecuteHierarchical(p: Providers, configs: seq<ModelConfig>, prompt: string): (rs: seq<Option<Response>>)
    ensures rs == ExecuteSequential(p, Grouping.Flatten(GroupBySpecialization(configs)), prompt)
    ensures |rs| == |configs|
  {
    RunGroupsIsFlatten(p, GroupBySpecialization(configs), prompt);
    RunGroups(p, GroupBySpecialization(configs), prompt)
  }

  /** Running the groups one after another runs their concatenation. */
  lemma {:induction false} RunGroupsIsFlatten(p: Providers, groups: Grouping.Groups<Option<string>, ModelConfig>, prompt: string)
    ensures RunGroups(p, groups, prompt) == ExecuteSequential(p, Grouping.Flatten(groups), prompt)
  {
    if groups != [] {
      RunGroupsIsFlatten(p, groups[1..], prompt);
      ParallelIsSequential(p, groups[0].1, prompt);
      SequentialAppend(p, groups[0].1, Grouping.Flatten(groups[1..]), prompt);
    }
  }

  lemma {:induction false} SequentialAppend(p: Providers, xs: seq<ModelConfig>, ys: seq<ModelConfig>, prompt: string)
    ensures ExecuteSequential(p, xs + ys, prompt) == ExecuteSequential(p, xs, prompt) + ExecuteSequential(p, ys, prompt)
  {
    if xs == [] {
      assert xs + ys == ys;
    } else {
      assert (xs + ys)[1..] == xs[1..] + ys;
      SequentialAppend(p, xs[1..], ys, prompt);
    }
  }

  // ---------------------------------------------------------------------------
  // Factory
  // ---------------------------------------------------------------------------

  /**
    `MixingStrategyFactory.get_supported_strategies`: every strategy, once.
    Since every strategy has an executor, `create_executor` never raises.
  */
  function SupportedStrategies(): (ss: seq<MixingStrategy>)
    ensures ss == AllStrategies()
    ensures forall s: MixingStrategy :: s in ss
    ensures Grouping.Distinct(ss)
  {
    assert forall s: MixingStrategy :: s in AllStrategies() by {
      forall s: MixingStrategy ensures s in AllStrategies() {
        AllStrategiesListed(s);
      }
    }
    AllStrategies()
  }

  /**
    `MixingStrategyFactory.create_executor(strategy).execute(...)`. Voting and
    weighted delegate to a parallel executor. Every strategy returns at most one
    slot per configuration, and exactly one unless it is a cascade that stopped.
  */
  function Execute(strategy: MixingStrategy, p: Providers, configs: seq<ModelConfig>, prompt: string): (rs: seq<Option<Response>>)
    ensures |rs| <= |configs|
    ensures strategy != Cascade ==> |rs| == |configs|
  {
    match strategy
    case Parallel => ExecuteParallel(p, configs, prompt)
    case Sequential => ExecuteSequential(p, configs, prompt)
    case Cascade => ExecuteCascade(p, configs, prompt)
    case Voting => ExecuteParallel(p, configs, prompt)
    case Weighted => ExecuteParallel(p, configs, prompt)
    case Hierarchical => ExecuteHierarchical(p, configs, prompt)
  }

  /**
    Every strategy but cascade and hierarchical returns one slot per
    configuration, aligned with it: slot `i` is None exactly when call `i`
    failed, and otherwise holds that call's response.
  */
  lemma AlignedStrategies(strategy: MixingStrategy, p: Providers, configs: seq<ModelConfig>, prompt: string)
    requires strategy != Cascade && strategy != Hierarchical
    ensures var rs := Execute(strategy, p, configs, prompt);
      && |rs| == |configs|
      && forall i | 0 <= i < |configs| :: rs[i] == Slot(ExecuteSingleModel(p, configs[i], prompt))
  {
    ParallelIsSequential(p, configs, prompt);
  }
}
