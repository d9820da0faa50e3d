/** What Stop achieves: hardly any further start, and what the containers that an early return finds
    registered have in common. */
module LifecycleStop {
  import opened Common
  import opened PodSpec
  import opened Lifecycle
  import opened LifecycleSafety
  import opened LifecycleAccounts

  /** How many of these starts are of the given containers. */
  function StartsAmong(started: seq<string>, ids: set<string>): nat {
    if started == [] then 0
    else StartsAmong(started[..|started| - 1], ids) + (if started[|started| - 1] in ids then 1 else 0)
  }

  lemma StartsAmongOneMore(started: seq<string>, id: string, ids: set<string>)
    ensures StartsAmong(started + [id], ids) == StartsAmong(started, ids) + (if id in ids then 1 else 0)
  {
    assert (started + [id])[..|started|] == started;
  }

  /** A start of one of the given containers that has begun, or that the consumer has decided on. */
  predicate UnderWay(cfg: Config, s: State, t: Thread, ids: set<string>) {
    RunInBounds(cfg, s) && AtStart(s, t) && StartId(cfg, s, t) in ids
  }

  function StartsToCome(cfg: Config, s: State, ids: set<string>): nat {
    if UnderWay(cfg, s, Runner, ids) || UnderWay(cfg, s, Consumer, ids) then 1 else 0
  }

  ghost predicate Swept(s: State, ids: set<string>) {
    forall id | id in ids :: id in s.shared.states && s.shared.states[id].stopped
  }

  lemma DecidesNothingNew(cfg: Config, s: State, ids: set<string>)
    requires Safe(cfg, s) && Swept(s, ids) && Enabled(cfg, s, Decides)
    ensures StartsToCome(cfg, Next(cfg, s, Decides), ids) <= StartsToCome(cfg, s, ids)
  {
  }

  lemma OthersStartNothing(cfg: Config, s: State, step: Step, ids: set<string>, t: Thread)
    requires RunInBounds(cfg, s) && Enabled(cfg, s, step) && !ChangesStates(step) && !step.Decides?
    ensures UnderWay(cfg, Next(cfg, s, step), t, ids) ==> UnderWay(cfg, s, t, ids)
  {
  }

  lemma OthersKeepSwept(cfg: Config, s: State, step: Step, ids: set<string>)
    requires Safe(cfg, s) && Swept(s, ids) && Enabled(cfg, s, step) && !ChangesStates(step)
    ensures Swept(Next(cfg, s, step), ids)
    ensures StartsToCome(cfg, Next(cfg, s, step), ids) <= StartsToCome(cfg, s, ids)
    ensures Next(cfg, s, step).started == s.started
  {
    OtherStepsKeepShared(cfg, s, step);
    if step.Decides? {
      DecidesNothingNew(cfg, s, ids);
    } else {
      OthersStartNothing(cfg, s, step, ids, Runner);
      OthersStartNothing(cfg, s, step, ids, Consumer);
    }
  }

  /** The two threads never start a container at the same time, so after a registration none does. */
  lemma NoneStartsAfterRegistering(cfg: Config, s: State, t: Thread, pid: int)
    requires Safe(cfg, s) && CanRegister(cfg, s, t)
    ensures var next := RegisteredBy(cfg, s, t, pid);
            !AtStart(next, Runner) && !AtStart(next, Consumer)
            && next.started == s.started + [StartId(cfg, s, t)]
  {
  }

  lemma RegisteringIsToCome(cfg: Config, s: State, t: Thread, ids: set<string>)
    requires Safe(cfg, s) && CanRegister(cfg, s, t)
    ensures StartsToCome(cfg, s, ids) == if StartId(cfg, s, t) in ids then 1 else 0
  {
    assert t.Runner? ==> !AtStart(s, Consumer);
    assert t.Consumer? ==> !AtStart(s, Runner);
  }

  lemma RegistersStopped(cfg: Config, s: State, t: Thread, pid: int, ids: set<string>)
    requires CanRegister(cfg, s, t) && Swept(s, ids)
    ensures Swept(RegisteredBy(cfg, s, t, pid), ids)
  {
  }

  lemma RegistersKeepsSwept(cfg: Config, s: State, t: Thread, pid: int, ids: set<string>)
    requires Safe(cfg, s) && Swept(s, ids) && CanRegister(cfg, s, t)
    ensures var next := RegisteredBy(cfg, s, t, pid);
            && Swept(next, ids)
            && StartsAmong(next.started, ids) + StartsToCome(cfg, next, ids) ==
               StartsAmong(s.started, ids) + StartsToCome(cfg, s, ids)
  {
    NoneStartsAfterRegistering(cfg, s, t, pid);
    RegisteringIsToCome(cfg, s, t, ids);
    RegistersStopped(cfg, s, t, pid, ids);
    StartsAmongOneMore(s.started, StartId(cfg, s, t), ids);
  }

  lemma BeginsKeepsSwept(cfg: Config, s: State, ids: set<string>)
    requires UniqueIds(cfg.containers) && Safe(cfg, s) && Swept(s, ids) && CanBegin(cfg, s)
    ensures Swept(Begun(cfg, s), ids) && StartsToCome(cfg, Begun(cfg, s), ids) == 0
  {
    assert cfg.containers[s.run.i].id !in s.shared.states;
  }

  lemma RecordsKeepSwept(cfg: Config, s: State, step: Step, ids: set<string>)
    requires Safe(cfg, s) && Swept(s, ids) && Enabled(cfg, s, step)
    requires step.Receives? || step.ClosesDone? || step.StopSweeps?
    ensures Swept(Next(cfg, s, step), ids) && Next(cfg, s, step).started == s.started
    ensures StartsToCome(cfg, Next(cfg, s, step), ids) <= StartsToCome(cfg, s, ids)
  {
  }

  lemma SweptStep(cfg: Config, s: State, step: Step, ids: set<string>)
    requires UniqueIds(cfg.containers) && Safe(cfg, s) && Swept(s, ids) && Enabled(cfg, s, step)
    ensures var next := Next(cfg, s, step);
            && Swept(next, ids)
            && StartsAmong(next.started, ids) + StartsToCome(cfg, next, ids) <=
               StartsAmong(s.started, ids) + StartsToCome(cfg, s, ids)
  {
    if !ChangesStates(step) {
      OthersKeepSwept(cfg, s, step, ids);
    } else if step.Registers? {
      RegistersKeepsSwept(cfg, s, step.t, step.pid, ids);
    } else if step.RunBegins? {
      BeginsKeepsSwept(cfg, s, ids);
    } else {
      RecordsKeepSwept(cfg, s, step, ids);
    }
  }

  lemma {:induction false} SweptRun(cfg: Config, steps: seq<Step>, n: nat, s: State, later: State, ids: set<string>)
    requires UniqueIds(cfg.containers)
    requires n <= |steps| && After(cfg, steps[..n]) == Some(s) && After(cfg, steps) == Some(later) && Swept(s, ids)
    ensures Swept(later, ids)
    ensures StartsAmong(later.started, ids) + StartsToCome(cfg, later, ids) <=
            StartsAmong(s.started, ids) + StartsToCome(cfg, s, ids)
    decreases |steps|
  {
    if n == |steps| {
      assert steps[..n] == steps;
    } else {
      var fewer := steps[..|steps| - 1];
      assert fewer[..n] == steps[..n];
      SweptRun(cfg, fewer, n, s, After(cfg, fewer).value, ids);
      EveryRunIsSafe(cfg, fewer);
      SweptStep(cfg, After(cfg, fewer).value, steps[|steps| - 1], ids);
    }
  }

  lemma SweepStops(cfg: Config, s: State)
    requires Enabled(cfg, s, StopSweeps)
    ensures var next := Next(cfg, s, StopSweeps);
            Swept(next, next.shared.states.Keys)
  {
  }

  /** Whenever Stop sweeps, the containers that have a record then complete at most one further start, all
      together: the one that has begun or that the consumer has decided on. */
  lemma SweptContainersStartOnceMore(cfg: Config, steps: seq<Step>, n: nat, s: State, later: State)
    requires UniqueIds(cfg.containers)
    requires 0 < n <= |steps| && steps[n - 1] == StopSweeps
    requires After(cfg, steps[..n]) == Some(s) && After(cfg, steps) == Some(later)
    ensures var ids := s.shared.states.Keys;
            StartsAmong(later.started, ids) <= StartsAmong(s.started, ids) + StartsToCome(cfg, s, ids)
                                            <= StartsAmong(s.started, ids) + 1
  {
    assert steps[..n][|steps[..n]| - 1] == StopSweeps;
    SweepStops(cfg, After(cfg, steps[..n][..n - 1]).value);
    SweptRun(cfg, steps, n, s, later, s.shared.states.Keys);
  }

  /** Run has started every container, whether or not it has spawned the consumer yet. */
  predicate FullyStarted(cfg: Config, s: State) {
    s.run == Looping(|cfg.containers|) || s.run.Waiting? || s.run == Returned(RunOk) || s.run == Returned(RunCancelled)
  }

  ghost predicate AllStopped(s: State) {
    forall id | id in s.shared.states :: s.shared.states[id].stopped
  }

  /** A start the consumer has already decided on. */
  function Pending(s: State): nat {
    if s.consumer.Restarting? then 1 else 0
  }

  lemma StoppedStep(cfg: Config, s: State, step: Step)
    requires FullyStarted(cfg, s) && AllStopped(s) && Enabled(cfg, s, step)
    ensures var next := Next(cfg, s, step);
            && FullyStarted(cfg, next) && AllStopped(next)
            && |next.started| + Pending(next) <= |s.started| + Pending(s)
  {
    if !ChangesStates(step) {
      OtherStepsKeepShared(cfg, s, step);
    }
  }

  lemma {:induction false} StoppedRun(cfg: Config, steps: seq<Step>, n: nat, s: State, later: State)
    requires n <= |steps| && After(cfg, steps[..n]) == Some(s) && After(cfg, steps) == Some(later)
    requires FullyStarted(cfg, s) && AllStopped(s)
    ensures FullyStarted(cfg, later) && AllStopped(later)
    ensures |later.started| + Pending(later) <= |s.started| + Pending(s)
    decreases |steps|
  {
    if n == |steps| {
      assert steps[..n] == steps;
    } else {
      var fewer := steps[..|steps| - 1];
      assert fewer[..n] == steps[..n];
      var before := After(cfg, fewer).value;
      StoppedRun(cfg, fewer, n, s, before);
      StoppedStep(cfg, before, steps[|steps| - 1]);
    }
  }

  /** Once Stop has swept a fully started pod, at most one further start completes in the whole pod:
      the one the consumer had already decided on. */
  lemma StopAllowsOneMoreStart(cfg: Config, steps: seq<Step>, n: nat, s: State, later: State)
    requires 0 < n <= |steps| && steps[n - 1] == StopSweeps
    requires After(cfg, steps[..n]) == Some(s) && FullyStarted(cfg, s)
    requires After(cfg, steps) == Some(later)
    ensures |later.started| <= |s.started| + Pending(s) <= |s.started| + 1
  {
    assert steps[..n][|steps[..n]| - 1] == StopSweeps;
    StoppedRun(cfg, steps, n, s, later);
  }

  /** A registered container that has exited before was started again. */
  ghost predicate ExitedMeansRestarted(s: State) {
    forall p | p in s.shared.pidIndex ::
      var id := s.shared.pidIndex[p];
      id in s.shared.states && (s.shared.states[id].lastExit.Some? ==> s.shared.states[id].starts >= 2)
  }

  lemma RegistersKeepsRestarted(cfg: Config, s: State, t: Thread, pid: int)
    requires Safe(cfg, s) && ExitedMeansRestarted(s) && CanRegister(cfg, s, t)
    ensures ExitedMeansRestarted(RegisteredBy(cfg, s, t, pid))
  {
    assert t.Consumer? ==> InConsumer(s, StartId(cfg, s, t));
  }

  lemma RestartedStep(cfg: Config, s: State, step: Step)
    requires Safe(cfg, s) && ExitedMeansRestarted(s) && Enabled(cfg, s, step)
    ensures ExitedMeansRestarted(Next(cfg, s, step))
  {
    if !ChangesStates(step) {
      OtherStepsKeepShared(cfg, s, step);
    } else if step.Registers? {
      RegistersKeepsRestarted(cfg, s, step.t, step.pid);
    } else {
      SafeForAccounts(cfg, s);
    }
  }

  lemma {:induction false} EveryRunKeepsRestarted(cfg: Config, steps: seq<Step>, s: State)
    requires UniqueIds(cfg.containers) && After(cfg, steps) == Some(s)
    ensures ExitedMeansRestarted(s)
  {
    if steps != [] {
      var before := After(cfg, steps[..|steps| - 1]).value;
      EveryRunKeepsRestarted(cfg, steps[..|steps| - 1], before);
      EveryRunIsSafe(cfg, steps[..|steps| - 1]);
      RestartedStep(cfg, before, steps[|steps| - 1]);
    }
  }

  /** When Stop returns before its deadline, every container still registered had been restarted; so
      if none ever was, no pid is registered. A started process need not be registered yet, though. */
  lemma EarlyStopLeavesOnlyRestarted(cfg: Config, steps: seq<Step>, s: State)
    requires UniqueIds(cfg.containers) && After(cfg, steps) == Some(s) && Enabled(cfg, s, StopSeesAllExited)
    ensures forall p | p in s.shared.pidIndex :: StartsOf(s, s.shared.pidIndex[p]) >= 2
    ensures (forall id | id in s.shared.states :: StartsOf(s, id) <= 1) ==> s.shared.pidIndex == map[]
  {
    EveryRunKeepsRestarted(cfg, steps, s);
  }
}
