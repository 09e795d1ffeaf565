/**
  `StrategyPerformanceMonitor`: per-strategy execution counters, their
  derived average time and success rate, and the choice of the best
  strategy by a fixed score.
*/
module StrategyMonitor {
  import opened Outcomes
  import opened Mixing
  import Ratios

  datatype StrategyMetrics = StrategyMetrics(
    totalExecutions: nat,
    successfulExecutions: nat,
    failedExecutions: nat,
    totalExecutionTime: real,
    averageExecutionTime: real,
    successRate: real)

  function ZeroMetrics(): StrategyMetrics {
    StrategyMetrics(0, 0, 0, 0.0, 0.0, 0.0)
  }

  /** `strategy_metrics`; its keys are inserted by `reset_metrics` in declaration order. */
  datatype Monitor = Monitor(metrics: map<MixingStrategy, StrategyMetrics>)

  /** `reset_metrics` (also what `__init__` ends with): every strategy back to zero. */
  function Reset(): (m: Monitor)
    ensures forall s: MixingStrategy :: s in m.metrics && m.metrics[s] == ZeroMetrics()
  {
    assert forall s: MixingStrategy :: s in AllStrategies() by {
      forall s: MixingStrategy ensures s in AllStrategies() {
        AllStrategiesListed(s);
      }
    }
    Monitor(map s | s in AllStrategies() :: ZeroMetrics())
  }

  /**
    `record_execution`: one more execution of `strategy`, counted as a
    success or a failure, its time added, and the two derived figures
    recomputed from the new totals; no other strategy changes.
  */
  function Record(m: Monitor, strategy: MixingStrategy, executionTime: real, success: bool): (r: Monitor)
    requires strategy in m.metrics
    ensures r.metrics.Keys == m.metrics.Keys
    ensures forall s | s in m.metrics && s != strategy :: r.metrics[s] == m.metrics[s]
    ensures var before := m.metrics[strategy];
      var after := r.metrics[strategy];
      && after.totalExecutions == before.totalExecutions + 1
      && after.successfulExecutions == before.successfulExecutions + (if success then 1 else 0)
      && after.failedExecutions == before.failedExecutions + (if success then 0 else 1)
      && after.totalExecutionTime == before.totalExecutionTime + executionTime
      && after.averageExecutionTime * after.totalExecutions as real == after.totalExecutionTime
      && after.successRate * after.totalExecutions as real == after.successfulExecutions as real * 100.0
  {
    var x := m.metrics[strategy];
    var total := x.totalExecutions + 1;
    var time := x.totalExecutionTime + executionTime;
    var successful := x.successfulExecutions + (if success then 1 else 0);
    var failed := x.failedExecutions + (if success then 0 else 1);
    var after := StrategyMetrics(total, successful, failed, time,
                                 time / total as real, successful as real / total as real * 100.0);
    Monitor(m.metrics[strategy := after])
  }

  /** A strategy's figures agree with each other. */
  ghost predicate Consistent(x: StrategyMetrics) {
    && x.totalExecutions == x.successfulExecutions + x.failedExecutions
    && (x.totalExecutions == 0 ==> x == ZeroMetrics())
    && (x.totalExecutions > 0 ==>
      && x.averageExecutionTime == x.totalExecutionTime / x.totalExecutions as real
      && x.successRate == x.successfulExecutions as real / x.totalExecutions as real * 100.0)
  }

  /** The monitor's invariant: every strategy is present and consistent. */
  ghost predicate Valid(m: Monitor) {
    forall s: MixingStrategy :: s in m.metrics && Consistent(m.metrics[s])
  }

  lemma ResetValid()
    ensures Valid(Reset())
  {
  }

  /** Recording keeps the invariant, and a success rate is a percentage. */
  lemma RecordPreservesValid(m: Monitor, strategy: MixingStrategy, executionTime: real, success: bool)
    requires Valid(m)
    ensures Valid(Record(m, strategy, executionTime, success))
    ensures 0.0 <= Record(m, strategy, executionTime, success).metrics[strategy].successRate <= 100.0
  {
    var after := Record(m, strategy, executionTime, success).metrics[strategy];
    RateBounds(after.successfulExecutions, after.totalExecutions);
  }

  lemma RateBounds(successful: nat, total: nat)
    requires 0 < total && successful <= total
    ensures 0.0 <= successful as real / total as real * 100.0 <= 100.0
  {
    Ratios.FractionBounds(successful, total);
  }

  // ---------------------------------------------------------------------------
  // Replaying executions
  // ---------------------------------------------------------------------------

  datatype Execution = Execution(strategy: MixingStrategy, executionTime: real, success: bool)

  /** The monitor after recording the executions in order, from a reset. */
  function Replay(events: seq<Execution>): (m: Monitor)
    ensures forall s: MixingStrategy :: s in m.metrics
  {
    if events == [] then Reset() else
      var n := |events| - 1;
      var e := events[n];
      Record(Replay(events[..n]), e.strategy, e.executionTime, e.success)
  }

  function CountOf(events: seq<Execution>, s: MixingStrategy, successOnly: bool): nat {
    if events == [] then 0 else
      var n := |events| - 1;
      CountOf(events[..n], s, successOnly)
        + (if events[n].strategy == s && (events[n].success || !successOnly) then 1 else 0)
  }

  function TimeOf(events: seq<Execution>, s: MixingStrategy): real {
    if events == [] then 0.0 else
      var n := |events| - 1;
      TimeOf(events[..n], s) + (if events[n].strategy == s then events[n].executionTime else 0.0)
  }

  /**
    After any history, a strategy's counters are its number of executions and
    of successful ones, and its total time is the sum of its execution times.
  */
  lemma {:induction false} ReplayCounts(events: seq<Execution>, s: MixingStrategy)
    ensures var x := Replay(events).metrics[s];
      && x.totalExecutions == CountOf(events, s, false)
      && x.successfulExecutions == CountOf(events, s, true)
      && x.totalExecutionTime == TimeOf(events, s)
  {
    if events != [] {
      ReplayCounts(events[..|events| - 1], s);
    }
  }

  lemma {:induction false} ReplayValid(events: seq<Execution>)
    ensures Valid(Replay(events))
  {
    if events != [] {
      var n := |events| - 1;
      ReplayValid(events[..n]);
      RecordPreservesValid(Replay(events[..n]), events[n].strategy, events[n].executionTime, events[n].success);
    }
  }

  // ---------------------------------------------------------------------------
  // Best strategy
  // ---------------------------------------------------------------------------

  /**
    `success_rate * 0.7 + (100 - average_execution_time * 10) * 0.3`: a
    percentage rate and an average time of at most ten seconds score in
    [0, 100].
  */
  function StrategyScore(x: StrategyMetrics): (score: real)
    ensures 0.0 <= x.successRate <= 100.0 && 0.0 <= x.averageExecutionTime <= 10.0 ==> 0.0 <= score <= 100.0
  {
    x.successRate * (7.0 / 10.0) + (100.0 - x.averageExecutionTime * 10.0) * (3.0 / 10.0)
  }

  /** A higher success rate scores higher, and so does a lower average time. */
  lemma ScorePrefers(x: StrategyMetrics, y: StrategyMetrics)
    ensures x.successRate >= y.successRate && x.averageExecutionTime <= y.averageExecutionTime ==>
      StrategyScore(x) >= StrategyScore(y)
    ensures x.successRate > y.successRate && x.averageExecutionTime <= y.averageExecutionTime ==>
      StrategyScore(x) > StrategyScore(y)
    ensures x.successRate >= y.successRate && x.averageExecutionTime < y.averageExecutionTime ==>
      StrategyScore(x) > StrategyScore(y)
  {
  }

  predicate Executed(m: Monitor, s: MixingStrategy) {
    s in m.metrics && m.metrics[s].totalExecutions > 0
  }

  /** `max(scored_strategies, key=...)` over the strategies in order: a later one must score strictly higher. */
  function BestOf(m: Monitor, ss: seq<MixingStrategy>): (b: Option<MixingStrategy>)
    ensures b.Some? ==> b.value in ss && Executed(m, b.value)
  {
    if ss == [] then None else
      var n := |ss| - 1;
      var best := BestOf(m, ss[..n]);
      if !Executed(m, ss[n]) then best
      else if best.None? || StrategyScore(m.metrics[ss[n]]) > StrategyScore(m.metrics[best.value]) then Some(ss[n])
      else best
  }

  /** `i` is the first executed strategy of `ss` with the greatest score. */
  ghost predicate FirstBest(m: Monitor, ss: seq<MixingStrategy>, i: int) {
    && 0 <= i < |ss| && Executed(m, ss[i])
    && (forall j | 0 <= j < i && Executed(m, ss[j]) :: StrategyScore(m.metrics[ss[j]]) < StrategyScore(m.metrics[ss[i]]))
    && (forall j | 0 <= j < |ss| && Executed(m, ss[j]) :: StrategyScore(m.metrics[ss[j]]) <= StrategyScore(m.metrics[ss[i]]))
  }

  lemma {:induction false} BestOfIsFirstBest(m: Monitor, ss: seq<MixingStrategy>)
    ensures BestOf(m, ss).None? <==> forall j | 0 <= j < |ss| :: !Executed(m, ss[j])
    ensures BestOf(m, ss).Some? ==> exists i :: FirstBest(m, ss, i) && ss[i] == BestOf(m, ss).value
  {
    if ss != [] {
      var n := |ss| - 1;
      var prefix := ss[..n];
      assert forall j | 0 <= j < n :: prefix[j] == ss[j];
      BestOfIsFirstBest(m, prefix);
      var best := BestOf(m, prefix);
      if best.Some? {
        var i :| FirstBest(m, prefix, i) && prefix[i] == best.value;
        if Executed(m, ss[n]) && StrategyScore(m.metrics[ss[n]]) > StrategyScore(m.metrics[best.value]) {
          assert FirstBest(m, ss, n);
        } else {
          assert FirstBest(m, ss, i);
        }
      } else if Executed(m, ss[n]) {
        assert FirstBest(m, ss, n);
      }
    }
  }

  /** `get_best_strategy`: whatever it names has run at least once. */
  function GetBestStrategy(m: Monitor): (best: Option<MixingStrategy>)
    ensures best.Some? ==> Executed(m, best.value)
  {
    BestOf(m, AllStrategies())
  }

  /**
    No strategy is chosen exactly when none has run; otherwise the choice has
    run and scores highest, and any strategy declared before it that has run
    scores strictly lower.
  */
  lemma GetBestStrategyOutcome(m: Monitor)
    ensures GetBestStrategy(m).None? <==> forall s: MixingStrategy :: !Executed(m, s)
    ensures GetBestStrategy(m).Some? ==> exists i :: FirstBest(m, AllStrategies(), i) && AllStrategies()[i] == GetBestStrategy(m).value
  {
    var ss := AllStrategies();
    BestOfIsFirstBest(m, ss);
    if GetBestStrategy(m).None? {
      forall s: MixingStrategy ensures !Executed(m, s) {
        AllStrategiesListed(s);
        var j :| 0 <= j < |ss| && ss[j] == s;
      }
    }
  }
}
