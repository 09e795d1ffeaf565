/**
  The metrics bookkeeping of `BaseLLMService`: request counters, latency
  statistics, usage counts per model, provider and operation, the selection
  counts, their reset and the health report built from them.
*/
module ServiceMetrics {
  import opened Outcomes
  import Ratios
  import Grouping

  datatype ServiceOperation = StructuredGeneration | TextGeneration | FallbackGeneration | HealthCheck

  /** A float that may be `float("inf")`, the initial minimum latency. */
  datatype Latency = Finite(value: real) | Infinity

  predicate Below(x: real, l: Latency) {
    l.Infinity? || x < l.value
  }

  // ---------------------------------------------------------------------------
  // Counters: dictionaries from keys to counts, in insertion order
  // ---------------------------------------------------------------------------

  type Counter<K> = seq<(K, nat)>

  /** `counts.get(k, 0)`. */
  function Get<K(==)>(c: Counter<K>, k: K): nat {
    if c == [] then 0 else if c[0].0 == k then c[0].1 else Get(c[1..], k)
  }

  /** The sum of all counts. */
  function Total<K>(c: Counter<K>): nat {
    if c == [] then 0 else c[0].1 + Total(c[1..])
  }

  /**
    `counts[k] = counts.get(k, 0) + 1`: an existing key keeps its place, a new
    one goes last; `k`'s count and the sum of all counts grow by one.
  */
  function Increment<K(==)>(c: Counter<K>, k: K): (r: Counter<K>)
    ensures Get(r, k) == Get(c, k) + 1
    ensures Total(r) == Total(c) + 1
  {
    if c == [] then [(k, 1)]
    else if c[0].0 == k then [(k, c[0].1 + 1)] + c[1..]
    else
      var rest := Increment(c[1..], k);
      assert ([c[0]] + rest)[1..] == rest;
      [c[0]] + rest
  }

  /**
    Incrementing adds one to `k`'s count and to the total, leaves every
    other count alone, and adds `k` as a key only if it was missing.
  */
  lemma IncrementSpec<K>(c: Counter<K>, k: K)
    ensures Get(Increment(c, k), k) == Get(c, k) + 1
    ensures forall k' | k' != k :: Get(Increment(c, k), k') == Get(c, k')
    ensures Total(Increment(c, k)) == Total(c) + 1
    ensures Grouping.Keys(Increment(c, k)) == if k in Grouping.Keys(c) then Grouping.Keys(c) else Grouping.Keys(c) + [k]
  {
    forall k' | k' != k ensures Get(Increment(c, k), k') == Get(c, k') {
      IncrementOthers(c, k, k');
    }
    IncrementKeys(c, k);
  }

  lemma {:induction false} IncrementOthers<K>(c: Counter<K>, k: K, k': K)
    requires k' != k
    ensures Get(Increment(c, k), k') == Get(c, k')
  {
    if c != [] && c[0].0 != k {
      IncrementOthers(c[1..], k, k');
      assert Increment(c, k)[1..] == Increment(c[1..], k);
    } else if c != [] {
      assert Increment(c, k)[1..] == c[1..];
    }
  }

  lemma {:induction false} IncrementKeys<K>(c: Counter<K>, k: K)
    ensures Grouping.Keys(Increment(c, k)) == if k in Grouping.Keys(c) then Grouping.Keys(c) else Grouping.Keys(c) + [k]
  {
    if c != [] && c[0].0 != k {
      IncrementKeys(c[1..], k);
      assert Grouping.Keys(c) == [c[0].0] + Grouping.Keys(c[1..]);
      assert Grouping.Keys(Increment(c, k)) == [c[0].0] + Grouping.Keys(Increment(c[1..], k));
    } else if c != [] {
      assert Grouping.Keys(Increment(c, k)) == Grouping.Keys(c);
    }
  }

  lemma IncrementKeepsDistinct<K>(c: Counter<K>, k: K)
    requires Grouping.Distinct(Grouping.Keys(c))
    ensures Grouping.Distinct(Grouping.Keys(Increment(c, k)))
  {
    IncrementSpec(c, k);
    if k !in Grouping.Keys(c) {
      var ks := Grouping.Keys(c) + [k];
      forall i, j | 0 <= i < j < |ks| ensures ks[i] != ks[j] {
        assert ks[i] == Grouping.Keys(c)[i];
        if j < |c| {
          assert ks[j] == Grouping.Keys(c)[j];
        }
      }
    }
  }

  /** In a counter built by increments every count is positive. */
  ghost predicate PositiveCounts<K>(c: Counter<K>) {
    forall i | 0 <= i < |c| :: c[i].1 > 0
  }

  lemma {:induction false} IncrementKeepsPositive<K>(c: Counter<K>, k: K)
    requires PositiveCounts(c)
    ensures PositiveCounts(Increment(c, k))
  {
    if c != [] && c[0].0 != k {
      IncrementKeepsPositive(c[1..], k);
    }
  }

  // ---------------------------------------------------------------------------
  // Service metrics
  // ---------------------------------------------------------------------------

  /** `ServiceMetrics` after `__post_init__`: the usage dictionaries always exist. */
  datatype Metrics = Metrics(
    totalRequests: nat,
    successfulRequests: nat,
    failedRequests: nat,
    averageLatencyMs: real,
    minLatencyMs: Latency,
    maxLatencyMs: real,
    modelUsageCounts: Counter<string>,
    providerUsageCounts: Counter<string>,
    operationCounts: Counter<ServiceOperation>)

  function InitialMetrics(): Metrics {
    Metrics(0, 0, 0, 0.0, Infinity, 0.0, [], [], [])
  }

  /** One call of `_update_service_metrics`. */
  datatype Sample = Sample(success: bool, latencyMs: real, modelUsed: string, providerUsed: string, operation: ServiceOperation)

  /**
    `_update_service_metrics`: one more request, counted as a success or a
    failure; the extremes move to include the latency; the mean is updated
    incrementally; the used model, provider and operation count one more.
  */
  function Update(m: Metrics, s: Sample): (r: Metrics)
    ensures r.totalRequests == m.totalRequests + 1
    ensures r.successfulRequests == m.successfulRequests + (if s.success then 1 else 0)
    ensures r.failedRequests == m.failedRequests + (if s.success then 0 else 1)
    ensures r.minLatencyMs == if Below(s.latencyMs, m.minLatencyMs) then Finite(s.latencyMs) else m.minLatencyMs
    ensures r.maxLatencyMs == if s.latencyMs > m.maxLatencyMs then s.latencyMs else m.maxLatencyMs
    ensures r.averageLatencyMs * r.totalRequests as real == m.averageLatencyMs * m.totalRequests as real + s.latencyMs
    ensures Get(r.modelUsageCounts, s.modelUsed) == Get(m.modelUsageCounts, s.modelUsed) + 1
    ensures forall model | model != s.modelUsed :: Get(r.modelUsageCounts, model) == Get(m.modelUsageCounts, model)
    ensures Get(r.providerUsageCounts, s.providerUsed) == Get(m.providerUsageCounts, s.providerUsed) + 1
    ensures forall provider | provider != s.providerUsed ::
      Get(r.providerUsageCounts, provider) == Get(m.providerUsageCounts, provider)
    ensures Get(r.operationCounts, s.operation) == Get(m.operationCounts, s.operation) + 1
    ensures forall op | op != s.operation :: Get(r.operationCounts, op) == Get(m.operationCounts, op)
  {
    IncrementSpec(m.modelUsageCounts, s.modelUsed);
    IncrementSpec(m.providerUsageCounts, s.providerUsed);
    IncrementSpec(m.operationCounts, s.operation);
    var total := m.totalRequests + 1;
    Metrics(
      total,
      m.successfulRequests + (if s.success then 1 else 0),
      m.failedRequests + (if s.success then 0 else 1),
      (m.averageLatencyMs * (total - 1) as real + s.latencyMs) / total as real,
      if Below(s.latencyMs, m.minLatencyMs) then Finite(s.latencyMs) else m.minLatencyMs,
      if s.latencyMs > m.maxLatencyMs then s.latencyMs else m.maxLatencyMs,
      Increment(m.modelUsageCounts, s.modelUsed),
      Increment(m.providerUsageCounts, s.providerUsed),
      Increment(m.operationCounts, s.operation))
  }

  /** The invariant every update keeps: counters agree with each other and each usage dictionary sums to the request count. */
  ghost predicate Consistent(m: Metrics) {
    && m.totalRequests == m.successfulRequests + m.failedRequests
    && Total(m.modelUsageCounts) == m.totalRequests
    && Total(m.providerUsageCounts) == m.totalRequests
    && Total(m.operationCounts) == m.totalRequests
    && Grouping.Distinct(Grouping.Keys(m.modelUsageCounts))
    && Grouping.Distinct(Grouping.Keys(m.providerUsageCounts))
    && Grouping.Distinct(Grouping.Keys(m.operationCounts))
    && PositiveCounts(m.modelUsageCounts)
    && PositiveCounts(m.providerUsageCounts)
  }

  lemma UpdatePreservesConsistent(m: Metrics, s: Sample)
    requires Consistent(m)
    ensures Consistent(Update(m, s))
  {
    IncrementSpec(m.modelUsageCounts, s.modelUsed);
    IncrementSpec(m.providerUsageCounts, s.providerUsed);
    IncrementSpec(m.operationCounts, s.operation);
    IncrementKeepsDistinct(m.modelUsageCounts, s.modelUsed);
    IncrementKeepsDistinct(m.providerUsageCounts, s.providerUsed);
    IncrementKeepsDistinct(m.operationCounts, s.operation);
    IncrementKeepsPositive(m.modelUsageCounts, s.modelUsed);
    IncrementKeepsPositive(m.providerUsageCounts, s.providerUsed);
  }

  /** The metrics after the samples, in order, from fresh metrics. */
  function Replay(samples: seq<Sample>): Metrics {
    if samples == [] then InitialMetrics() else
      var n := |samples| - 1;
      Update(Replay(samples[..n]), samples[n])
  }

  lemma {:induction false} ReplayConsistent(samples: seq<Sample>)
    ensures Consistent(Replay(samples))
  {
    if samples != [] {
      var n := |samples| - 1;
      ReplayConsistent(samples[..n]);
      UpdatePreservesConsistent(Replay(samples[..n]), samples[n]);
    }
  }

  function SumLatency(samples: seq<Sample>): real {
    if samples == [] then 0.0 else
      var n := |samples| - 1;
      SumLatency(samples[..n]) + samples[n].latencyMs
  }

  function Successes(samples: seq<Sample>): nat {
    if samples == [] then 0 else
      var n := |samples| - 1;
      Successes(samples[..n]) + (if samples[n].success then 1 else 0)
  }

  /** The request counters count the samples and the successful ones. */
  lemma {:induction false} ReplayCounts(samples: seq<Sample>)
    ensures Replay(samples).totalRequests == |samples|
    ensures Replay(samples).successfulRequests == Successes(samples)
  {
    if samples != [] {
      ReplayCounts(samples[..|samples| - 1]);
    }
  }

  /**
    The incremental update computes the arithmetic mean: after any samples
    the average latency is their sum over their number (0.0 before any).
  */
  lemma {:induction false} ReplayMean(samples: seq<Sample>)
    ensures samples == [] ==> Replay(samples).averageLatencyMs == 0.0
    ensures samples != [] ==> Replay(samples).averageLatencyMs == SumLatency(samples) / |samples| as real
  {
    if samples != [] {
      var n := |samples| - 1;
      ReplayMean(samples[..n]);
      ReplayCounts(samples[..n]);
      if n == 0 {
        assert samples[..n] == [];
      }
      UpdateMean(Replay(samples[..n]), samples[n], SumLatency(samples[..n]));
    }
  }

  /** An update turns the mean of the earlier latencies into the mean including the new one. */
  lemma UpdateMean(m: Metrics, s: Sample, sum: real)
    requires m.totalRequests == 0 ==> m.averageLatencyMs == 0.0 && sum == 0.0
    requires m.totalRequests > 0 ==> m.averageLatencyMs == sum / m.totalRequests as real
    ensures Update(m, s).averageLatencyMs == (sum + s.latencyMs) / (m.totalRequests + 1) as real
  {
    MeanStep(m.averageLatencyMs, m.totalRequests, sum, s.latencyMs, Update(m, s).averageLatencyMs);
  }

  /** One incremental step of a running mean gives the mean of one more value. */
  lemma MeanStep(mean: real, n: nat, sum: real, x: real, next: real)
    requires n == 0 ==> mean == 0.0 && sum == 0.0
    requires n > 0 ==> mean == sum / n as real
    requires next * (n + 1) as real == mean * n as real + x
    ensures next == (sum + x) / (n + 1) as real
  {
    WeightedMean(mean, n, sum);
    DivideBack(next, (n + 1) as real, sum + x);
  }

  /** A mean times the number of values is their sum. */
  lemma WeightedMean(mean: real, n: nat, sum: real)
    requires n == 0 ==> mean == 0.0 && sum == 0.0
    requires n > 0 ==> mean == sum / n as real
    ensures mean * n as real == sum
  {
  }

  lemma DivideBack(x: real, m: real, s: real)
    requires m > 0.0 && x * m == s
    ensures x == s / m
  {
  }

  /**
    After at least one sample the minimum is finite, at most every latency
    and one of them; the maximum is at least every latency and 0.0, and is
    one of them unless all are negative.
  */
  lemma ReplayBounds(samples: seq<Sample>)
    ensures samples == [] ==> Replay(samples).minLatencyMs == Infinity && Replay(samples).maxLatencyMs == 0.0
    ensures samples != [] ==> Replay(samples).minLatencyMs.Finite?
    ensures forall i | 0 <= i < |samples| :: !Below(samples[i].latencyMs, Replay(samples).minLatencyMs)
    ensures forall i | 0 <= i < |samples| :: samples[i].latencyMs <= Replay(samples).maxLatencyMs
    ensures Replay(samples).minLatencyMs.Finite? ==>
      exists i | 0 <= i < |samples| :: samples[i].latencyMs == Replay(samples).minLatencyMs.value
    ensures 0.0 <= Replay(samples).maxLatencyMs
    ensures Replay(samples).maxLatencyMs == 0.0 || exists i | 0 <= i < |samples| :: samples[i].latencyMs == Replay(samples).maxLatencyMs
  {
    ReplayMinBounds(samples);
    ReplayMaxBounds(samples);
  }

  lemma {:induction false} ReplayMinBounds(samples: seq<Sample>)
    ensures samples == [] ==> Replay(samples).minLatencyMs == Infinity
    ensures samples != [] ==> Replay(samples).minLatencyMs.Finite?
    ensures forall i | 0 <= i < |samples| :: !Below(samples[i].latencyMs, Replay(samples).minLatencyMs)
    ensures Replay(samples).minLatencyMs.Finite? ==>
      exists i | 0 <= i < |samples| :: samples[i].latencyMs == Replay(samples).minLatencyMs.value
  {
    if samples != [] {
      var n := |samples| - 1;
      ReplayMinBounds(samples[..n]);
      assert forall i | 0 <= i < n :: samples[..n][i] == samples[i];
    }
  }

  lemma {:induction false} ReplayMaxBounds(samples: seq<Sample>)
    ensures samples == [] ==> Replay(samples).maxLatencyMs == 0.0
    ensures forall i | 0 <= i < |samples| :: samples[i].latencyMs <= Replay(samples).maxLatencyMs
    ensures 0.0 <= Replay(samples).maxLatencyMs
    ensures Replay(samples).maxLatencyMs == 0.0 || exists i | 0 <= i < |samples| :: samples[i].latencyMs == Replay(samples).maxLatencyMs
  {
    if samples != [] {
      var n := |samples| - 1;
      var prev := Replay(samples[..n]).maxLatencyMs;
      var max := Replay(samples).maxLatencyMs;
      ReplayMaxBounds(samples[..n]);
      assert forall i | 0 <= i < n :: samples[..n][i] == samples[i];
      assert max == if samples[n].latencyMs > prev then samples[n].latencyMs else prev;
      if samples[n].latencyMs <= prev && prev != 0.0 {
        var i :| 0 <= i < n && samples[..n][i].latencyMs == prev;
        assert samples[i].latencyMs == max;
      }
    }
  }

  function UsesOf<K(==)>(keys: seq<K>, k: K): nat {
    if keys == [] then 0 else
      var n := |keys| - 1;
      UsesOf(keys[..n], k) + (if keys[n] == k then 1 else 0)
  }

  function ModelsUsed(samples: seq<Sample>): (ks: seq<string>)
    ensures |ks| == |samples|
    ensures forall i | 0 <= i < |samples| :: ks[i] == samples[i].modelUsed
  {
    seq(|samples|, i requires 0 <= i < |samples| => samples[i].modelUsed)
  }

  /** Each model's usage count is the number of samples that used it. */
  lemma {:induction false} ReplayModelUsage(samples: seq<Sample>, model: string)
    ensures Get(Replay(samples).modelUsageCounts, model) == UsesOf(ModelsUsed(samples), model)
  {
    if samples != [] {
      var n := |samples| - 1;
      ReplayModelUsage(samples[..n], model);
      ReplayUsageStep(samples, model);
      UsesOfStep(samples, model);
    }
  }

  /** The last sample adds one to its own model's count and nothing to the others. */
  lemma ReplayUsageStep(samples: seq<Sample>, model: string)
    requires samples != []
    ensures Get(Replay(samples).modelUsageCounts, model)
      == Get(Replay(samples[..|samples| - 1]).modelUsageCounts, model) + (if samples[|samples| - 1].modelUsed == model then 1 else 0)
  {
    var n := |samples| - 1;
    assert Replay(samples) == Update(Replay(samples[..n]), samples[n]);
  }

  lemma UsesOfStep(samples: seq<Sample>, model: string)
    requires samples != []
    ensures UsesOf(ModelsUsed(samples), model)
      == UsesOf(ModelsUsed(samples[..|samples| - 1]), model) + (if samples[|samples| - 1].modelUsed == model then 1 else 0)
  {
    var n := |samples| - 1;
    assert ModelsUsed(samples)[..n] == ModelsUsed(samples[..n]);
  }

  // ---------------------------------------------------------------------------
  // Service state: metrics, selection statistics, reset and health
  // ---------------------------------------------------------------------------

  /** The bookkeeping part of a service; `_last_selection_time` holds clock readings and is not kept. */
  datatype Service = Service(metrics: Metrics, selectionStats: Counter<string>)

  /** `f"{model_name}:{strategy.value}"`; `SelectionStrategy` is defined in llm/model_selector.py, which is not part of this model. */
  function SelectionKey(modelName: string, strategyValue: string): (key: string)
    ensures |key| == |modelName| + 1 + |strategyValue|
    ensures key[..|modelName|] == modelName && key[|modelName|] == ':' && key[|modelName| + 1..] == strategyValue
  {
    modelName + ":" + strategyValue
  }

  /** `_update_selection_stats`: only the key of this model and strategy counts one more. */
  function UpdateSelectionStats(s: Service, modelName: string, strategyValue: string): (r: Service)
    ensures r.metrics == s.metrics
    ensures Get(r.selectionStats, SelectionKey(modelName, strategyValue)) == Get(s.selectionStats, SelectionKey(modelName, strategyValue)) + 1
    ensures forall k | k != SelectionKey(modelName, strategyValue) :: Get(r.selectionStats, k) == Get(s.selectionStats, k)
  {
    IncrementSpec(s.selectionStats, SelectionKey(modelName, strategyValue));
    Service(s.metrics, Increment(s.selectionStats, SelectionKey(modelName, strategyValue)))
  }

  /** `reset_metrics`. */
  function ResetMetrics(s: Service): (r: Service)
    ensures r.metrics.totalRequests == 0 && r.metrics.averageLatencyMs == 0.0
    ensures r.metrics.minLatencyMs == Infinity && r.metrics.maxLatencyMs == 0.0
    ensures forall k :: Get(r.selectionStats, k) == 0
    ensures Consistent(r.metrics)
  {
    Service(InitialMetrics(), [])
  }

  /** The dictionary `health_check` returns. */
  datatype HealthReport = HealthReport(
    status: string,
    totalRequests: nat,
    successRate: real,
    averageLatencyMs: real,
    availableModels: nat,
    availableProviders: nat)

  /** `health_check`: the success rate is over `max(1, total_requests)`. */
  function HealthCheckReport(s: Service): (r: HealthReport)
    ensures r.status == "healthy"
    ensures r.totalRequests == s.metrics.totalRequests
    ensures r.averageLatencyMs == s.metrics.averageLatencyMs
    ensures r.availableModels == |s.metrics.modelUsageCounts| && r.availableProviders == |s.metrics.providerUsageCounts|
  {
    var m := s.metrics;
    HealthReport("healthy", m.totalRequests,
                 m.successfulRequests as real / (if m.totalRequests > 1 then m.totalRequests else 1) as real,
                 m.averageLatencyMs, |m.modelUsageCounts|, |m.providerUsageCounts|)
  }

  /**
    For consistent metrics the reported success rate is the fraction of
    successful requests, in [0, 1], and 0.0 before any request.
  */
  lemma HealthSuccessRate(s: Service)
    requires Consistent(s.metrics)
    ensures var r := HealthCheckReport(s);
      && 0.0 <= r.successRate <= 1.0
      && (s.metrics.totalRequests == 0 ==> r.successRate == 0.0)
      && (s.metrics.totalRequests > 0 ==> r.successRate * s.metrics.totalRequests as real == s.metrics.successfulRequests as real)
  {
    var m := s.metrics;
    if m.totalRequests > 0 {
      Ratios.FractionBounds(m.successfulRequests, m.totalRequests);
    }
  }


  /** The health report's model count is the number of distinct models the samples used. */
  lemma HealthCountsDistinctModels(samples: seq<Sample>, selectionStats: Counter<string>)
    ensures HealthCheckReport(Service(Replay(samples), selectionStats)).availableModels
      == |set model | model in ModelsUsed(samples)|
  {
    var c := Replay(samples).modelUsageCounts;
    ReplayConsistent(samples);
    forall model ensures model in ModelsUsed(samples) <==> model in Grouping.Keys(c) {
      ReplayModelUsage(samples, model);
      GetPositiveIffKey(c, model);
      UsesPositiveIffIn(ModelsUsed(samples), model);
    }
    assert (set model | model in ModelsUsed(samples)) == (set model | model in Grouping.Keys(c));
    DistinctCardinality(Grouping.Keys(c));
  }

  lemma {:induction false} DistinctCardinality<K>(ks: seq<K>)
    requires Grouping.Distinct(ks)
    ensures |set k | k in ks| == |ks|
  {
    if ks != [] {
      var n := |ks| - 1;
      DistinctCardinality(ks[..n]);
      assert (set k | k in ks) == (set k | k in ks[..n]) + {ks[n]};
      assert ks[n] !in ks[..n];
    }
  }

  lemma {:induction false} UsesPositiveIffIn<K>(keys: seq<K>, k: K)
    ensures UsesOf(keys, k) > 0 <==> k in keys
  {
    if keys != [] {
      var n := |keys| - 1;
      UsesPositiveIffIn(keys[..n], k);
      assert keys == keys[..n] + [keys[n]];
    }
  }

  lemma {:induction false} GetPositiveIffKey<K>(c: Counter<K>, k: K)
    requires PositiveCounts(c)
    ensures Get(c, k) > 0 <==> k in Grouping.Keys(c)
  {
    if c != [] {
      assert Grouping.Keys(c) == [c[0].0] + Grouping.Keys(c[1..]);
      GetPositiveIffKey(c[1..], k);
    }
  }
}
