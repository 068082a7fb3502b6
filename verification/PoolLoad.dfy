/** The load controller of a pool: packages/azure-services/src/azure-batch/pool-load-generator.ts. */
module PoolLoad {
  import opened Common

  datatype PoolMetrics = PoolMetrics(maxTasksPerPool: nat, activeTasks: nat, runningTasks: nat)

  /** The fields of the generator that feed back; `last` is missing before the first snapshot. */
  datatype LoadState = LoadState(
    ratio: real, defaultRatio: real, lastActive: int, last: Option<real>, processingSpeed: real)

  const INITIAL := LoadState(0.0, 0.0, 0, None, 0.0)

  /** JavaScript `Math.ceil` */
  function Ceil(x: real): int { -((-x).Floor) }

  /** setActiveToRunningTasksRatio */
  function NextRatio(s: LoadState, m: PoolMetrics): real
    requires s.last.Some?
  {
    if m.activeTasks == 0 && s.last.value > 0.0 then s.ratio + 1.0
    else if m.maxTasksPerPool as real * (s.ratio + 1.0) < m.activeTasks as real then s.defaultRatio
    else s.ratio
  }

  function Increment(m: PoolMetrics, ratio: real, speed: real): real {
    var increment := m.maxTasksPerPool as real * ratio - m.activeTasks as real + Ceil(speed / 2.0) as real;
    if increment > 0.0 then increment else 0.0
  }

  function Snapshot(s: LoadState, m: PoolMetrics, configRatio: real): LoadState {
    if s.last.None? then
      var increment := m.maxTasksPerPool as real * configRatio - m.activeTasks as real;
      LoadState(configRatio, configRatio, m.activeTasks, Some(increment), s.processingSpeed)
    else
      var speed := s.last.value + s.lastActive as real - m.activeTasks as real;
      var ratio := NextRatio(s, m);
      LoadState(ratio, s.defaultRatio, m.activeTasks, Some(Increment(m, ratio, speed)), speed)
  }

  class PoolLoadGenerator {
    var activeToRunningTasksRatio: real
    var defaultActiveToRunningTasksRatio: real
    var lastPoolLoad: int
    var lastTasksIncrementCount: Option<real>
    var processingSpeed: real
    const configRatio: real

    function State(): LoadState
      reads this
    {
      LoadState(activeToRunningTasksRatio, defaultActiveToRunningTasksRatio, lastPoolLoad, lastTasksIncrementCount,
                processingSpeed)
    }

    constructor (configRatio: real)
      ensures State() == INITIAL && this.configRatio == configRatio
    {
      this.configRatio := configRatio;
      activeToRunningTasksRatio, defaultActiveToRunningTasksRatio := 0.0, 0.0;
      lastPoolLoad, lastTasksIncrementCount, processingSpeed := 0, None, 0.0;
    }

    method GetPoolLoadSnapshot(metrics: PoolMetrics) returns (increment: real)
      modifies this
      ensures State() == Snapshot(old(State()), metrics, configRatio)
      ensures lastTasksIncrementCount == Some(increment)
      ensures old(lastTasksIncrementCount).Some? ==> increment >= 0.0
    {
      CalculateTasksIncrementCount(metrics);
      lastPoolLoad := metrics.activeTasks;
      increment := lastTasksIncrementCount.value;
    }

    method SetLastTasksIncrementCount(count: real)
      modifies this`lastTasksIncrementCount
      ensures lastTasksIncrementCount == Some(count)
    {
      lastTasksIncrementCount := Some(count);
    }

    method CalculateTasksIncrementCount(metrics: PoolMetrics)
      modifies this
      ensures State() == Snapshot(old(State()), metrics, configRatio).(lastActive := old(lastPoolLoad))
    {
      if lastTasksIncrementCount.None? {
        lastTasksIncrementCount := Some(metrics.maxTasksPerPool as real * configRatio - metrics.activeTasks as real);
        defaultActiveToRunningTasksRatio := configRatio;
        activeToRunningTasksRatio := configRatio;
        assert lastTasksIncrementCount.value == Snapshot(old(State()), metrics, configRatio).last.value;
        return;
      }
      processingSpeed := lastTasksIncrementCount.value + lastPoolLoad as real - metrics.activeTasks as real;
      SetActiveToRunningTasksRatio(metrics.activeTasks, metrics.maxTasksPerPool);
      lastTasksIncrementCount := Some(Increment(metrics, activeToRunningTasksRatio, processingSpeed));
      ghost var before := old(State());
      assert activeToRunningTasksRatio == NextRatio(before, metrics);
    }

    method SetActiveToRunningTasksRatio(activeTasks: nat, maxTasksPerPool: nat)
      requires lastTasksIncrementCount.Some?
      modifies this`activeToRunningTasksRatio
      ensures activeToRunningTasksRatio ==
        if activeTasks == 0 && lastTasksIncrementCount.value > 0.0 then old(activeToRunningTasksRatio) + 1.0
        else if maxTasksPerPool as real * (old(activeToRunningTasksRatio) + 1.0) < activeTasks as real
        then defaultActiveToRunningTasksRatio
        else old(activeToRunningTasksRatio)
    {
      if activeTasks == 0 && lastTasksIncrementCount.value > 0.0 {
        activeToRunningTasksRatio := activeToRunningTasksRatio + 1.0;
      } else if maxTasksPerPool as real * (activeToRunningTasksRatio + 1.0) < activeTasks as real {
        activeToRunningTasksRatio := defaultActiveToRunningTasksRatio;
      }
    }
  }

  /** What a snapshot asks for: at first, to fill the pool to the configured ratio, also when that is less than nothing; later, to
      bring the backlog to the ratio and half of what was drained, rounded up, if it is below, and nothing if it is not. */
  lemma SnapshotAims(s: LoadState, m: PoolMetrics, configRatio: real) returns (half: int)
    ensures Snapshot(s, m, configRatio).last.Some?
    ensures var r := Snapshot(s, m, configRatio);
      var load := m.activeTasks as real;
      if s.last.None? then r.ratio == r.defaultRatio == configRatio && load + r.last.value == m.maxTasksPerPool as real * r.ratio
      else
        var drained, aim := s.last.value + s.lastActive as real - load, m.maxTasksPerPool as real * r.ratio + half as real;
        && drained <= 2.0 * half as real < drained + 2.0
        && (load < aim ==> load + r.last.value == aim) && (load >= aim ==> r.last.value == 0.0)
  {
    hide NextRatio;
    var drained := (if s.last.Some? then s.last.value else 0.0) + s.lastActive as real - m.activeTasks as real;
    half := Ceil(drained / 2.0);
    assert drained <= 2.0 * half as real < drained + 2.0;
  }

  // ----- every run -----

  datatype Event = Measured(metrics: PoolMetrics) | TasksAdded(count: nat)

  function Step(s: LoadState, e: Event, configRatio: real): LoadState {
    match e
    case Measured(m) => Snapshot(s, m, configRatio)
    case TasksAdded(n) => s.(last := Some(n as real))
  }

  /** A run starts with a measurement. */
  function After(events: seq<Event>, first: PoolMetrics, configRatio: real): LoadState {
    if events == [] then Snapshot(INITIAL, first, configRatio)
    else Step(After(events[..|events| - 1], first, configRatio), events[|events| - 1], configRatio)
  }

  function Raised(configRatio: real, n: nat): real { configRatio + n as real }

  ghost predicate IsDefaultPlusNatural(ratio: real, configRatio: real) {
    exists n: nat :: ratio == Raised(configRatio, n)
  }

  /** In every run the ratio is the configured one plus a natural number, and every increment after the first is not negative. */
  lemma {:induction false} RatioAndIncrement(events: seq<Event>, first: PoolMetrics, configRatio: real)
    ensures var s := After(events, first, configRatio);
      && s.defaultRatio == configRatio && IsDefaultPlusNatural(s.ratio, configRatio)
      && s.last.Some? && (events != [] ==> s.last.value >= 0.0)
  {
    if events == [] {
      assert configRatio == Raised(configRatio, 0);
    } else {
      RatioAndIncrement(events[..|events| - 1], first, configRatio);
      var s := After(events[..|events| - 1], first, configRatio);
      var n: nat :| s.ratio == Raised(configRatio, n);
      assert s.ratio + 1.0 == Raised(configRatio, n + 1);
      assert configRatio == Raised(configRatio, 0);
    }
  }

  /** The next ratio goes up, by one, exactly when the pool stands idle although tasks were added; otherwise it goes down, to
      the default, exactly when it is above that and the backlog is more than one ratio higher would ask for; and then the
      backlog is within that, or the ratio is the default. */
  ghost predicate FollowsLoad(s: LoadState, m: PoolMetrics)
    requires s.last.Some?
  {
    var next, idle := NextRatio(s, m), m.activeTasks == 0 && s.last.value > 0.0;
    var above := m.activeTasks as real > m.maxTasksPerPool as real * (s.ratio + 1.0);
    && (next > s.ratio <==> idle) && (next > s.ratio ==> next == s.ratio + 1.0)
    && (next < s.ratio <==> above && s.ratio > s.defaultRatio) && (next < s.ratio ==> next == s.defaultRatio)
    && (m.activeTasks as real <= m.maxTasksPerPool as real * (next + 1.0) || next == s.defaultRatio)
  }

  lemma RatioAtLeastDefault(s: LoadState, m: PoolMetrics)
    requires s.last.Some? && 0.0 <= s.defaultRatio <= s.ratio
    ensures FollowsLoad(s, m)
  {
    assert m.maxTasksPerPool as real * (s.ratio + 1.0) >= 0.0;
    assert m.maxTasksPerPool as real * (s.ratio + 2.0) >= 0.0;
  }

  /** In every run the ratio follows the load, whatever is measured next. */
  lemma RatioFollowsLoad(events: seq<Event>, first: PoolMetrics, configRatio: real, m: PoolMetrics)
    requires configRatio >= 0.0
    ensures var s := After(events, first, configRatio); s.last.Some? && FollowsLoad(s, m)
  {
    hide FollowsLoad;
    RatioAndIncrement(events, first, configRatio);
    RatioAtLeastDefault(After(events, first, configRatio), m);
  }

  // ----- the backlog settles -----

  /** One interval in which all tasks of the increment are added and `drain` tasks leave the backlog. */
  function Interval(s: LoadState, active: int, drain: nat): int
    requires s.last.Some?
  {
    active + s.last.value.Floor - drain
  }

  /** The backlog and the controller after k intervals; missing when the backlog cannot give the drain. */
  function Evolve(s: LoadState, active: int, drain: nat, maxTasks: nat, k: nat): Option<(LoadState, int)>
    requires s.last.Some?
  {
    if k == 0 then Some((s, active))
    else
      match Evolve(s, active, drain, maxTasks, k - 1)
      case None => None
      case Some((s', active')) =>
        if s'.last.None? || s'.last.value.Floor as real != s'.last.value then None
        else
          var next := Interval(s', active', drain);
          if next < 0 then None else Some((Snapshot(s', PoolMetrics(maxTasks, next, 0), s'.defaultRatio), next))
  }

  /** The controller has just seen `active` waiting tasks and `drain` leaving, with the target T = maxTasks * ratio whole. */
  ghost predicate Settling(s: LoadState, active: int, drain: nat, maxTasks: nat, target: int) {
    && s.lastActive == active && maxTasks as real * s.ratio == target as real && s.ratio >= 0.0
    && s.last == Some((target - active + (drain + 1) / 2) as real) && s.last.value >= 0.0
  }

  /** Every snapshot that measures a drain, with a whole target and an increment that is not clamped, leaves the controller so. */
  lemma SnapshotSettles(s: LoadState, m: PoolMetrics, drain: nat, target: int, configRatio: real)
    requires s.last.Some? && s.last.value + s.lastActive as real - m.activeTasks as real == drain as real
    requires m.maxTasksPerPool as real * NextRatio(s, m) == target as real && NextRatio(s, m) >= 0.0
    requires target - m.activeTasks + (drain + 1) / 2 >= 0
    ensures Settling(Snapshot(s, m, configRatio), m.activeTasks, drain, m.maxTasksPerPool, target)
  {
    hide NextRatio;
    CeilHalf(drain);
    var increment := target - m.activeTasks + (drain + 1) / 2;
    assert Increment(m, NextRatio(s, m), drain as real) == increment as real;
  }

  lemma CeilHalf(n: int)
    ensures Ceil(n as real / 2.0) == (n + 1) / 2
  {
    var h := (n + 1) / 2;
    assert (-(n as real / 2.0)).Floor == -h by {
      if n % 2 == 0 {
        assert n as real / 2.0 == h as real;
      } else {
        assert n == 2 * h - 1;
        assert -(n as real / 2.0) == -(h as real) + 0.5;
      }
    }
  }

  lemma SteadyRatio(s: LoadState, m: PoolMetrics, target: int)
    requires s.last.Some? && m.maxTasksPerPool as real * s.ratio == target as real && m.activeTasks <= target
    ensures NextRatio(s, m) == if m.activeTasks > 0 || s.last.value <= 0.0 then s.ratio else s.ratio + 1.0
  {
    assert m.maxTasksPerPool as real * (s.ratio + 1.0) == target as real + m.maxTasksPerPool as real;
  }

  lemma SteadyIncrement(m: PoolMetrics, ratio: real, target: int, drain: nat)
    requires m.maxTasksPerPool as real * ratio == target as real && m.activeTasks == target - drain / 2
    ensures Increment(m, ratio, drain as real) == drain as real
  {
    CeilHalf(drain);
    assert (drain + 1) / 2 + drain / 2 == drain;
  }

  /** With a constant drain the backlog stands, after one interval, at T - floor(drain / 2). If tasks are left waiting, or
      none was added, the ratio is kept and the increment equals the drain; otherwise the ratio goes up. */
  lemma SettlesInOneInterval(s: LoadState, active: int, drain: nat, maxTasks: nat, target: int)
    requires Settling(s, active, drain, maxTasks, target) && target - drain / 2 >= 0
    ensures Interval(s, active, drain) == target - drain / 2
    ensures var s' := Snapshot(s, PoolMetrics(maxTasks, target - drain / 2, 0), s.defaultRatio);
      && s'.processingSpeed == drain as real
      && s'.ratio == (if target > drain / 2 || s.last.value == 0.0 then s.ratio else s.ratio + 1.0)
      && (s'.ratio == s.ratio ==>
            s'.last == Some(drain as real) && Settling(s', target - drain / 2, drain, maxTasks, target))
  {
    hide Increment, NextRatio;
    var next := target - drain / 2;
    var m := PoolMetrics(maxTasks, next, 0);
    assert s.last.value.Floor == target - active + (drain + 1) / 2;
    assert (drain + 1) / 2 + drain / 2 == drain;
    assert s.last.value + active as real - next as real == drain as real;
    SteadyRatio(s, m, target);
    SteadyIncrement(m, s.ratio, target, drain);
    assert (target - next + (drain + 1) / 2) as real == drain as real;
  }

  /** From then on it stays there for good. */
  lemma {:induction false} BacklogStays(s: LoadState, active: int, drain: nat, maxTasks: nat, target: int, k: nat)
    requires Settling(s, active, drain, maxTasks, target) && target - drain / 2 > 0 && k >= 1
    ensures var r := Evolve(s, active, drain, maxTasks, k);
      && r.Some? && r.value.1 == target - drain / 2 && r.value.0.ratio == s.ratio
      && r.value.0.last == Some(drain as real) && Settling(r.value.0, r.value.1, drain, maxTasks, target)
  {
    if k == 1 {
      SettlesInOneInterval(s, active, drain, maxTasks, target);
    } else {
      BacklogStays(s, active, drain, maxTasks, target, k - 1);
      var (s', active') := Evolve(s, active, drain, maxTasks, k - 1).value;
      SettlesInOneInterval(s', active', drain, maxTasks, target);
    }
  }
}
