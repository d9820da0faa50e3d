/** When Stop returns before its deadline although a container lives. lastExit survives a restart, so a
    container that exited once and came back does not keep Stop waiting. */
module LifecycleEarlyStop {
  import opened Common
  import opened PodSpec
  import opened Lifecycle
  import opened LifecycleSafety
  import opened LifecycleAccounts
  import opened LifecycleStop
  import opened LifecycleTracking
  import opened LifecycleExits

  // What an early return leaves

  /** A record with a start or an exit is that of a container with a bundle. */
  ghost predicate BundledRecords(cfg: Config, s: State) {
    && (forall id | id in s.shared.states && s.shared.states[id].starts >= 1 :: id in cfg.bundles)
    && (forall id | id in s.shared.states && s.shared.states[id].lastExit.Some? :: s.shared.states[id].starts >= 1)
    && (forall id | id in s.shared.states && s.shared.states[id].done :: s.shared.states[id].starts >= 1)
  }

  /** Only containers with a bundle are ever started. */
  ghost predicate Bundled(cfg: Config, s: State) {
    BundledRecords(cfg, s) && BundledStart(cfg, s, Runner) && BundledStart(cfg, s, Consumer)
  }

  predicate BundledStart(cfg: Config, s: State, t: Thread) {
    RunInBounds(cfg, s) && (AtStart(s, t) && !StartingAt(s, t).value.Creating? ==> StartId(cfg, s, t) in cfg.bundles)
  }

  lemma UnrelatedKeepsBundledStart(cfg: Config, s: State, step: Step, t: Thread)
    requires Safe(cfg, s) && BundledStart(cfg, s, t) && Enabled(cfg, s, step) && Unrelated(step)
    requires RunInBounds(cfg, Next(cfg, s, step))
    ensures BundledStart(cfg, Next(cfg, s, step), t)
  {
    UnrelatedStarts(cfg, s, step, t);
  }

  lemma StartStepsKeepBundledStart(cfg: Config, s: State, step: Step, t: Thread)
    requires Safe(cfg, s) && BundledStart(cfg, s, t) && Enabled(cfg, s, step)
    requires step.CreateSucceeds? || step.StartSucceeds? || step.Registers?
    ensures BundledStart(cfg, Next(cfg, s, step), t)
  {
  }

  lemma OtherStepsKeepBundledStart(cfg: Config, s: State, step: Step, t: Thread)
    requires Safe(cfg, s) && BundledStart(cfg, s, t) && Enabled(cfg, s, step)
    requires step.Receives? || Outside(step)
    ensures BundledStart(cfg, Next(cfg, s, step), t)
  {
    if Outside(step) {
      OutsideKeepsShared(cfg, s, step);
    }
  }

  lemma StepKeepsBundledStart(cfg: Config, s: State, step: Step, t: Thread)
    requires UniqueIds(cfg.containers) && Safe(cfg, s) && BundledStart(cfg, s, t) && Enabled(cfg, s, step)
    ensures BundledStart(cfg, Next(cfg, s, step), t)
  {
    if step.CreateSucceeds? || step.StartSucceeds? || step.Registers? {
      StartStepsKeepBundledStart(cfg, s, step, t);
    } else if step.Receives? || Outside(step) {
      OtherStepsKeepBundledStart(cfg, s, step, t);
    } else {
      StepKeepsSafe(cfg, s, step);
      UnrelatedKeepsBundledStart(cfg, s, step, t);
    }
  }

  lemma RegistersKeepsBundled(cfg: Config, s: State, t: Thread, pid: int)
    requires BundledRecords(cfg, s) && CanRegister(cfg, s, t) && StartId(cfg, s, t) in cfg.bundles
    ensures BundledRecords(cfg, RegisteredBy(cfg, s, t, pid))
  {
  }

  lemma RecordsStayBundled(cfg: Config, s: State, step: Step)
    requires Safe(cfg, s) && BundledRecords(cfg, s) && Enabled(cfg, s, step)
    requires step.RunBegins? || step.StopSweeps? || step.ClosesDone? || step.Receives?
    ensures BundledRecords(cfg, Next(cfg, s, step))
  {
    if step.ClosesDone? {
      assert InConsumer(s, s.consumer.id);
    }
  }

  lemma StepKeepsBundled(cfg: Config, s: State, step: Step)
    requires UniqueIds(cfg.containers) && Safe(cfg, s) && Bundled(cfg, s) && Enabled(cfg, s, step)
    ensures Bundled(cfg, Next(cfg, s, step))
  {
    StepKeepsBundledStart(cfg, s, step, Runner);
    StepKeepsBundledStart(cfg, s, step, Consumer);
    if !ChangesStates(step) {
      OtherStepsKeepShared(cfg, s, step);
    } else if step.Registers? {
      RegistersKeepsBundled(cfg, s, step.t, step.pid);
    } else {
      RecordsStayBundled(cfg, s, step);
    }
  }

  lemma {:induction false} EveryRunIsBundled(cfg: Config, steps: seq<Step>, s: State)
    requires UniqueIds(cfg.containers) && After(cfg, steps) == Some(s)
    ensures Bundled(cfg, s)
  {
    if steps != [] {
      var fewer := steps[..|steps| - 1];
      EveryRunIsBundled(cfg, fewer, After(cfg, fewer).value);
      EveryRunIsSafe(cfg, fewer);
      StepKeepsBundled(cfg, After(cfg, fewer).value, steps[|steps| - 1]);
    }
  }

  predicate Restartable(c: Container) {
    c.restart == "always" || c.restart == "on-failure"
  }

  /** Whether a restart of this container is under way. */
  function ComingBack(s: State, id: string): nat {
    if s.consumer.Restarting? && s.consumer.id == id then 1 else 0
  }

  /** A started process whose exit was not handled, seen when every record has an exit. */
  predicate Overlooked(cfg: Config, s: State, k: nat) {
    && Enabled(cfg, s, StopSeesAllExited)
    && k < |s.procs| && s.procs[k].owner.Some? && !WasHandled(s, k, s.procs[k].owner.value)
  }

  /** An exit on record means that the consumer runs, hence that Run has started every container. */
  lemma AllExitedMeansAllBundled(cfg: Config, s: State, id: string)
    requires Safe(cfg, s) && Bundled(cfg, s) && s.shared.AllExited() && id in s.shared.states
    ensures forall i | 0 <= i < |cfg.containers| :: cfg.containers[i].id in cfg.bundles
    ensures !s.run.RunStarting?
  {
    assert s.shared.states[id].lastExit.Some?;
    assert !s.consumer.NotRunning?;
    forall i | 0 <= i < |cfg.containers| ensures cfg.containers[i].id in cfg.bundles {
      assert cfg.containers[i].id in s.shared.states;
    }
  }

  lemma TrackedIsRestarted(cfg: Config, s: State, k: nat)
    requires Tracking(cfg, s) && Safe(cfg, s) && ExitedMeansRestarted(s)
    requires Overlooked(cfg, s, k) && IsTracked(s, k)
    ensures var id := s.procs[k].owner.value;
            id in s.shared.states && StartsOf(s, id) >= 2
  {
    var p :| p in s.tracked && s.tracked[p] == k;
    assert s.shared.pidIndex[p] == s.procs[k].owner.value;
  }

  lemma RegisteringIsRestarted(cfg: Config, s: State, t: Thread, k: nat)
    requires Tracking(cfg, s) && Safe(cfg, s) && Bundled(cfg, s)
    requires Overlooked(cfg, s, k) && StartingAt(s, t) == Some(Registering(k))
    ensures var id := s.procs[k].owner.value;
            id in s.shared.states && StartsOf(s, id) + ComingBack(s, id) >= 2
  {
    var id := s.procs[k].owner.value;
    assert StartOk(cfg, s, t) && StartId(cfg, s, t) == id;
    assert Busy(cfg, s, id);
    AllExitedMeansAllBundled(cfg, s, id);
    assert t.Consumer? && InConsumer(s, id);
  }

  /** An overlooked process is that of a container started before, registered again or about to be. */
  lemma OverlookedIsRestarted(cfg: Config, steps: seq<Step>, s: State, k: nat)
    requires UniqueIds(cfg.containers) && After(cfg, steps) == Some(s) && HonestRun(cfg, steps)
    requires Overlooked(cfg, s, k)
    ensures var id := s.procs[k].owner.value;
            id in s.shared.states && StartsOf(s, id) + ComingBack(s, id) >= 2
  {
    EveryHonestRunTracks(cfg, steps, s);
    EveryRunIsSafe(cfg, steps);
    EveryRunKeepsRestarted(cfg, steps, s);
    EveryRunIsBundled(cfg, steps, s);
    if IsTracked(s, k) {
      TrackedIsRestarted(cfg, s, k);
    } else {
      assert OwnedOk(s) && Kept(s);
      RegisteringIsRestarted(cfg, s, if StartingAt(s, Runner) == Some(Registering(k)) then Runner else Consumer, k);
    }
  }

  /** When Stop returns before its deadline, every started container process has been handled exactly when no
      pid is registered and the consumer is not about to register one; and this is so if no container was
      restarted or is being restarted. */
  lemma EarlyStopIsCleanIffIdle(cfg: Config, steps: seq<Step>, s: State)
    requires UniqueIds(cfg.containers) && After(cfg, steps) == Some(s) && HonestRun(cfg, steps)
    requires Enabled(cfg, s, StopSeesAllExited)
    ensures AllHandled(s) <==> s.shared.pidIndex == map[] && NoneRegistering(s)
    ensures (forall id :: StartsOf(s, id) + ComingBack(s, id) <= 1) ==> AllHandled(s)
  {
    AllHandledIffIdle(cfg, steps, s);
    if forall id :: StartsOf(s, id) + ComingBack(s, id) <= 1 {
      forall k | 0 <= k < |s.procs| && s.procs[k].owner.Some? ensures WasHandled(s, k, s.procs[k].owner.value) {
        if !WasHandled(s, k, s.procs[k].owner.value) {
          OverlookedIsRestarted(cfg, steps, s, k);
        }
      }
    }
  }

  /** The pods in which a container can be overlooked: all of them start, and one is restarted. */
  predicate CanOverlook(cfg: Config) {
    && (forall i | 0 <= i < |cfg.containers| :: cfg.containers[i].id in cfg.bundles)
    && exists i | 0 <= i < |cfg.containers| :: Restartable(cfg.containers[i])
  }

  lemma SecondStartNeedsPolicy(cfg: Config, s: State, id: string)
    requires Safe(cfg, s) && PolicyBound(cfg, s, id) && id in s.shared.states
    requires StartsOf(s, id) + ComingBack(s, id) >= 2
    ensures exists i | 0 <= i < |cfg.containers| :: Restartable(cfg.containers[i])
  {
    assert Declared(cfg.containers, id);
    var i :| 0 <= i < |cfg.containers| && cfg.containers[i].id == id;
    assert s.shared.states[cfg.containers[i].id].restart == cfg.containers[i].restart;
    assert Restartable(cfg.containers[i]);
  }

  lemma SecondStartMeansRestartable(cfg: Config, steps: seq<Step>, s: State, id: string)
    requires UniqueIds(cfg.containers) && After(cfg, steps) == Some(s)
    requires id in s.shared.states && StartsOf(s, id) + ComingBack(s, id) >= 2
    ensures exists i | 0 <= i < |cfg.containers| :: Restartable(cfg.containers[i])
  {
    EveryRunKeepsPolicyBound(cfg, steps, s, id);
    EveryRunIsSafe(cfg, steps);
    SecondStartNeedsPolicy(cfg, s, id);
  }

  lemma EarlyStopMeansAllBundled(cfg: Config, steps: seq<Step>, s: State, id: string)
    requires UniqueIds(cfg.containers) && After(cfg, steps) == Some(s)
    requires s.shared.AllExited() && id in s.shared.states
    ensures forall i | 0 <= i < |cfg.containers| :: cfg.containers[i].id in cfg.bundles
  {
    EveryRunIsSafe(cfg, steps);
    EveryRunIsBundled(cfg, steps, s);
    AllExitedMeansAllBundled(cfg, s, id);
  }

  lemma SecondStartNeedsPod(cfg: Config, steps: seq<Step>, s: State, id: string)
    requires UniqueIds(cfg.containers) && After(cfg, steps) == Some(s) && s.shared.AllExited()
    requires id in s.shared.states && StartsOf(s, id) + ComingBack(s, id) >= 2
    ensures CanOverlook(cfg)
  {
    SecondStartMeansRestartable(cfg, steps, s, id);
    EarlyStopMeansAllBundled(cfg, steps, s, id);
  }

  lemma OverlookedNeedsRestartable(cfg: Config, steps: seq<Step>, s: State, k: nat)
    requires UniqueIds(cfg.containers) && After(cfg, steps) == Some(s) && HonestRun(cfg, steps)
    requires Overlooked(cfg, s, k)
    ensures CanOverlook(cfg)
  {
    OverlookedIsRestarted(cfg, steps, s, k);
    SecondStartNeedsPod(cfg, steps, s, s.procs[k].owner.value);
  }

  // A run that overlooks a container, for every such pod

  lemma Extend(cfg: Config, steps: seq<Step>, s: State, step: Step) returns (more: seq<Step>, next: State)
    requires After(cfg, steps) == Some(s) && GrantedRun(cfg, steps)
    requires Enabled(cfg, s, step) && Granted(s, step)
    ensures After(cfg, more) == Some(next) && GrantedRun(cfg, more) && next == Next(cfg, s, step)
    ensures more == steps + [step]
  {
    AfterOneMore(cfg, steps, step);
    assert (steps + [step])[..|steps|] == steps;
    more, next := steps + [step], Next(cfg, s, step);
  }

  /** No event is under way and the reaper still runs. */
  predicate Quiet(s: State) {
    s.hand == None && s.channel == [] && !s.closed
  }

  /** Run starts its next container without trouble. */
  lemma RunnerStarts(cfg: Config, steps: seq<Step>, s: State, pid: int) returns (more: seq<Step>, next: State)
    requires After(cfg, steps) == Some(s) && GrantedRun(cfg, steps)
    requires CanBegin(cfg, s) && cfg.containers[s.run.i].id in cfg.bundles && PidFree(s, pid) && Quiet(s)
    ensures After(cfg, more) == Some(next) && GrantedRun(cfg, more)
    ensures var c := cfg.containers[s.run.i];
            && next.run == Looping(s.run.i + 1) && next.consumer == s.consumer && next.stop == s.stop && Quiet(next)
            && next.procs == s.procs + [Process(pid, Alive, Some(c.id))]
            && next.shared == s.shared.Inserted(c).Registered(c.id, pid)
  {
    more, next := RunnerLaunches(cfg, steps, s, pid);
    more, next := Extend(cfg, more, next, Registers(Runner, pid));
  }

  lemma RunnerLaunches(cfg: Config, steps: seq<Step>, s: State, pid: int) returns (more: seq<Step>, next: State)
    requires After(cfg, steps) == Some(s) && GrantedRun(cfg, steps)
    requires CanBegin(cfg, s) && cfg.containers[s.run.i].id in cfg.bundles && PidFree(s, pid) && Quiet(s)
    ensures After(cfg, more) == Some(next) && GrantedRun(cfg, more)
    ensures && next.run == RunStarting(s.run.i, Registering(|s.procs|)) && next.consumer == s.consumer
            && next.stop == s.stop && Quiet(next)
            && next.procs == s.procs + [Process(pid, Alive, Some(cfg.containers[s.run.i].id))]
            && next.shared == s.shared.Inserted(cfg.containers[s.run.i])
  {
    more, next := RunnerCreates(cfg, steps, s, pid);
    more, next := Extend(cfg, more, next, StartSucceeds(Runner));
    assert next.procs == s.procs + [Process(pid, Alive, Some(cfg.containers[s.run.i].id))];
  }

  lemma RunnerCreates(cfg: Config, steps: seq<Step>, s: State, pid: int) returns (more: seq<Step>, next: State)
    requires After(cfg, steps) == Some(s) && GrantedRun(cfg, steps)
    requires CanBegin(cfg, s) && cfg.containers[s.run.i].id in cfg.bundles && PidFree(s, pid) && Quiet(s)
    ensures After(cfg, more) == Some(next) && GrantedRun(cfg, more)
    ensures && next.run == RunStarting(s.run.i, Starting(|s.procs|)) && next.consumer == s.consumer
            && next.stop == s.stop && Quiet(next)
            && next.procs == s.procs + [Process(pid, Alive, None)]
            && next.shared == s.shared.Inserted(cfg.containers[s.run.i])
  {
    more, next := Extend(cfg, steps, s, RunBegins);
    more, next := Extend(cfg, more, next, CreateSucceeds(Runner, pid));
  }

  const FAILED := ExitStatus(1, false)

  /** A container's process fails, and the consumer hears of it. */
  lemma ExitArrives(cfg: Config, steps: seq<Step>, s: State, k: nat, pid: int, id: string)
      returns (more: seq<Step>, next: State)
    requires After(cfg, steps) == Some(s) && GrantedRun(cfg, steps) && RunInBounds(cfg, s)
    requires s.consumer == Receiving && Quiet(s) && k < |s.procs| && s.procs[k].phase.Alive?
    requires s.procs[k].pid == pid && pid in s.shared.pidIndex && s.shared.pidIndex[pid] == id && id in s.shared.states
    ensures After(cfg, more) == Some(next) && GrantedRun(cfg, more)
    ensures var ev := Reaped(pid, FAILED, k);
            && next.run == s.run && next.consumer == Deciding(id, ev) && next.stop == s.stop && Quiet(next)
            && next.shared == s.shared.Exited(ev)
            && next.procs == s.procs[k := s.procs[k].(phase := Collected)]
  {
    more, next := ExitIsCollected(cfg, steps, s, k);
    more, next := Extend(cfg, more, next, ReaperPushes);
    more, next := Extend(cfg, more, next, Receives);
  }

  /** A process fails, and the reaper collects it. */
  lemma ExitIsCollected(cfg: Config, steps: seq<Step>, s: State, k: nat) returns (more: seq<Step>, next: State)
    requires After(cfg, steps) == Some(s) && GrantedRun(cfg, steps) && RunInBounds(cfg, s)
    requires s.hand == None && !s.closed && k < |s.procs| && s.procs[k].phase.Alive?
    ensures After(cfg, more) == Some(next) && GrantedRun(cfg, more)
    ensures next == s.(procs := s.procs[k := s.procs[k].(phase := Collected)],
                       hand := Some(Reaped(s.procs[k].pid, FAILED, k)))
  {
    more, next := Extend(cfg, steps, s, ProcessExits(k, FAILED));
    more, next := Extend(cfg, more, next, ReaperCollects(k));
    assert next.procs == s.procs[k := s.procs[k].(phase := Collected)];
  }

  /** The consumer closes the container's done, if need be after a restart that failed. */
  lemma LetsGo(cfg: Config, steps: seq<Step>, s: State, id: string) returns (more: seq<Step>, next: State)
    requires After(cfg, steps) == Some(s) && GrantedRun(cfg, steps) && RunInBounds(cfg, s)
    requires s.consumer.Deciding? && s.consumer.id == id && id in s.shared.states && id in cfg.bundles && Quiet(s)
    ensures After(cfg, more) == Some(next) && GrantedRun(cfg, more)
    ensures next.run == s.run && next.consumer == Receiving && next.stop == s.stop && Quiet(next)
    ensures next.shared == s.shared.Closed(id) && next.procs == s.procs
  {
    more, next := Extend(cfg, steps, s, Decides);
    if next.consumer == Restarting(id, Creating) {
      more, next := Extend(cfg, more, next, CreateFails(Consumer));
    }
    more, next := Extend(cfg, more, next, ClosesDone);
  }

  /** The consumer restarts the container. */
  lemma ComesBack(cfg: Config, steps: seq<Step>, s: State, id: string, pid: int)
      returns (more: seq<Step>, next: State)
    requires After(cfg, steps) == Some(s) && GrantedRun(cfg, steps) && RunInBounds(cfg, s) && s.run.Waiting?
    requires s.consumer.Deciding? && s.consumer.id == id && id in s.shared.states && id in cfg.bundles && Quiet(s)
    requires ShouldRestart(s.shared.states[id], s.consumer.ev) && Declared(cfg.containers, id) && PidFree(s, pid)
    ensures After(cfg, more) == Some(next) && GrantedRun(cfg, more)
    ensures next.run == s.run && next.consumer == Restarting(id, Registering(|s.procs|)) && next.stop == s.stop
    ensures next.shared == s.shared && next.procs == s.procs + [Process(pid, Alive, Some(id))]
  {
    more, next := Extend(cfg, steps, s, Decides);
    more, next := Extend(cfg, more, next, CreateSucceeds(Consumer, pid));
    more, next := Extend(cfg, more, next, StartSucceeds(Consumer));
    assert next.procs == s.procs + [Process(pid, Alive, Some(id))];
  }

  /** The first n containers run, each with its number as its pid. */
  ghost predicate Up(cfg: Config, s: State, n: nat) {
    && n <= |cfg.containers| && s.run == Looping(n) && s.consumer == NotRunning && s.stop == NotCalled && Quiet(s)
    && |s.procs| == n
    && (forall k | 0 <= k < n ::
          && s.procs[k] == Process(k + 1, Alive, Some(cfg.containers[k].id))
          && k + 1 in s.shared.pidIndex && s.shared.pidIndex[k + 1] == cfg.containers[k].id)
    && (forall id | id in s.shared.states :: !s.shared.states[id].stopped)
  }

  lemma OneMoreUp(cfg: Config, s: State, next: State, n: nat)
    requires Up(cfg, s, n) && n < |cfg.containers|
    requires next.run == Looping(n + 1) && next.consumer == s.consumer && next.stop == s.stop && Quiet(next)
    requires next.procs == s.procs + [Process(n + 1, Alive, Some(cfg.containers[n].id))]
    requires next.shared == s.shared.Inserted(cfg.containers[n]).Registered(cfg.containers[n].id, n + 1)
    ensures Up(cfg, next, n + 1)
  {
    var id := cfg.containers[n].id;
    assert next.shared.pidIndex == s.shared.pidIndex[n + 1 := id];
    assert forall other | other in next.shared.states && other != id ::
        next.shared.states[other] == s.shared.states[other];
    assert !next.shared.states[id].stopped;
    forall k | 0 <= k <= n
      ensures next.procs[k] == Process(k + 1, Alive, Some(cfg.containers[k].id))
      ensures k + 1 in next.shared.pidIndex && next.shared.pidIndex[k + 1] == cfg.containers[k].id
    {
      if k < n {
        assert next.procs[k] == s.procs[k];
        assert k + 1 in s.shared.pidIndex;
      }
    }
  }

  lemma {:induction false} AllComeUp(cfg: Config, n: nat) returns (steps: seq<Step>, s: State)
    requires n <= |cfg.containers|
    requires forall i | 0 <= i < |cfg.containers| :: cfg.containers[i].id in cfg.bundles
    ensures After(cfg, steps) == Some(s) && GrantedRun(cfg, steps) && Up(cfg, s, n)
  {
    if n == 0 {
      steps, s := [], Initial();
    } else {
      var before;
      steps, before := AllComeUp(cfg, n - 1);
      steps, s := RunnerStarts(cfg, steps, before, n);
      OneMoreUp(cfg, before, s, n - 1);
    }
  }

  /** Of the running containers the first n, all but one of them, have exited and been let go. */
  ghost predicate Down(cfg: Config, s: State, n: nat, spared: nat) {
    && n <= |cfg.containers| && s.run == Waiting(0) && s.consumer == Receiving && s.stop == NotCalled && Quiet(s)
    && |s.procs| == |cfg.containers|
    && (forall k | 0 <= k < |cfg.containers| ::
          && s.procs[k].pid == k + 1 && s.procs[k].owner == Some(cfg.containers[k].id)
          && cfg.containers[k].id in s.shared.states
          && if k < n && k != spared then s.shared.states[cfg.containers[k].id].lastExit.Some?
             else s.procs[k].phase.Alive? && k + 1 in s.shared.pidIndex
                  && s.shared.pidIndex[k + 1] == cfg.containers[k].id)
    && (forall id | id in s.shared.states :: !s.shared.states[id].stopped)
  }

  lemma OneMoreDown(cfg: Config, s: State, next: State, n: nat, spared: nat)
    requires UniqueIds(cfg.containers) && Down(cfg, s, n, spared) && n < |cfg.containers| && n != spared
    requires next.run == s.run && next.consumer == Receiving && next.stop == s.stop && Quiet(next)
    requires next.procs == s.procs[n := s.procs[n].(phase := Collected)]
    requires next.shared == s.shared.Exited(Reaped(n + 1, FAILED, n)).Closed(cfg.containers[n].id)
    ensures Down(cfg, next, n + 1, spared)
  {
    assert forall k | 0 <= k < |cfg.containers| && k != n ::
        next.procs[k] == s.procs[k] && cfg.containers[k].id != cfg.containers[n].id;
  }

  /** What is known of one container that still runs. */
  lemma StillUp(cfg: Config, s: State, n: nat, spared: nat, k: nat)
    requires Down(cfg, s, n, spared) && k < |cfg.containers| && (k >= n || k == spared)
    ensures var id := cfg.containers[k].id;
            && s.procs[k].phase.Alive? && s.procs[k].pid == k + 1 && RunInBounds(cfg, s)
            && k + 1 in s.shared.pidIndex && s.shared.pidIndex[k + 1] == id && id in s.shared.states
  {
  }

  lemma OneGoesDown(cfg: Config, steps: seq<Step>, s: State, n: nat, spared: nat)
      returns (more: seq<Step>, next: State)
    requires UniqueIds(cfg.containers) && After(cfg, steps) == Some(s) && GrantedRun(cfg, steps)
    requires Down(cfg, s, n, spared) && n < |cfg.containers| && n != spared && cfg.containers[n].id in cfg.bundles
    ensures After(cfg, more) == Some(next) && GrantedRun(cfg, more) && Down(cfg, next, n + 1, spared)
  {
    var id := cfg.containers[n].id;
    StillUp(cfg, s, n, spared, n);
    more, next := HandleExit(cfg, steps, s, n, n + 1, id);
    OneMoreDown(cfg, s, next, n, spared);
  }

  lemma HandleExit(cfg: Config, steps: seq<Step>, s: State, k: nat, pid: int, id: string)
      returns (more: seq<Step>, next: State)
    requires After(cfg, steps) == Some(s) && GrantedRun(cfg, steps) && RunInBounds(cfg, s) && id in cfg.bundles
    requires s.consumer == Receiving && Quiet(s) && k < |s.procs| && s.procs[k].phase.Alive?
    requires s.procs[k].pid == pid && pid in s.shared.pidIndex && s.shared.pidIndex[pid] == id && id in s.shared.states
    ensures After(cfg, more) == Some(next) && GrantedRun(cfg, more)
    ensures && next.run == s.run && next.consumer == Receiving && next.stop == s.stop && Quiet(next)
            && next.shared == s.shared.Exited(Reaped(pid, FAILED, k)).Closed(id)
            && next.procs == s.procs[k := s.procs[k].(phase := Collected)]
  {
    more, next := ExitArrives(cfg, steps, s, k, pid, id);
    more, next := LetsGo(cfg, more, next, id);
  }

  lemma {:induction false} OthersGoDown(cfg: Config, n: nat, spared: nat) returns (steps: seq<Step>, s: State)
    requires UniqueIds(cfg.containers) && 0 < |cfg.containers| && n <= |cfg.containers|
    requires forall i | 0 <= i < |cfg.containers| :: cfg.containers[i].id in cfg.bundles
    ensures After(cfg, steps) == Some(s) && GrantedRun(cfg, steps) && Down(cfg, s, n, spared)
  {
    if n == 0 {
      var up;
      steps, up := AllComeUp(cfg, |cfg.containers|);
      EveryRunIsSafe(cfg, steps);
      steps, s := Extend(cfg, steps, up, ConsumerSpawns);
    } else {
      steps, s := OthersGoDown(cfg, n - 1, spared);
      if n - 1 != spared {
        steps, s := OneGoesDown(cfg, steps, s, n - 1, spared);
      }
    }
  }

  /** Once the spared one has exited too, every record has an exit, and the spared one is to be restarted. */
  lemma LastExit(cfg: Config, s: State, next: State, j: nat)
    requires UniqueIds(cfg.containers) && Safe(cfg, s) && Down(cfg, s, |cfg.containers|, j)
    requires j < |cfg.containers| && Restartable(cfg.containers[j])
    requires next.shared == s.shared.Exited(Reaped(j + 1, FAILED, j))
    requires next.procs == s.procs[j := s.procs[j].(phase := Collected)]
    ensures next.shared.AllExited() && PidFree(next, |cfg.containers| + 1)
    ensures var id := cfg.containers[j].id;
            && Declared(cfg.containers, id) && id in next.shared.states
            && ShouldRestart(next.shared.states[id], Reaped(j + 1, FAILED, j))
  {
    forall id | id in s.shared.states ensures next.shared.states[id].lastExit.Some? {
      assert Declared(cfg.containers, id);
      var i :| 0 <= i < |cfg.containers| && cfg.containers[i].id == id;
      assert i != j ==> s.shared.states[cfg.containers[i].id].lastExit.Some?;
    }
  }

  /** All exit, one of them last, and that one comes back. */
  lemma SparedComesBack(cfg: Config, j: nat) returns (steps: seq<Step>, s: State)
    requires UniqueIds(cfg.containers) && j < |cfg.containers| && Restartable(cfg.containers[j])
    requires forall i | 0 <= i < |cfg.containers| :: cfg.containers[i].id in cfg.bundles
    ensures After(cfg, steps) == Some(s) && GrantedRun(cfg, steps) && s.stop == NotCalled && RunInBounds(cfg, s)
    ensures s.shared.AllExited() && |s.procs| == |cfg.containers| + 1
    ensures s.procs[|cfg.containers|] == Process(|cfg.containers| + 1, Alive, Some(cfg.containers[j].id))
  {
    var id, down := cfg.containers[j].id, Initial();
    steps, down := OthersGoDown(cfg, |cfg.containers|, j);
    StillUp(cfg, down, |cfg.containers|, j, j);
    EveryRunIsSafe(cfg, steps);
    steps, s := ExitArrives(cfg, steps, down, j, j + 1, id);
    LastExit(cfg, down, s, j);
    steps, s := ComesBack(cfg, steps, s, id, |cfg.containers| + 1);
  }

  predicate LiveContainer(s: State, k: nat, id: string) {
    k < |s.procs| && s.procs[k].phase.Alive? && s.procs[k].owner == Some(id)
  }

  /** Stop has just returned before its deadline, and a process started for a container is not collected. */
  predicate StopsEarlyOnStarted(cfg: Config, steps: seq<Step>, k: nat) {
    && steps != [] && steps[|steps| - 1] == StopSeesAllExited && After(cfg, steps).Some?
    && var s := After(cfg, steps).value;
       k < |s.procs| && s.procs[k].owner.Some? && !s.procs[k].phase.Collected?
  }

  /** In every pod whose containers all start, a container that is restarted can live on after an early
      return of Stop. */
  lemma EarlyStopCanLeaveOneAlive(cfg: Config, j: nat) returns (steps: seq<Step>, s: State)
    requires UniqueIds(cfg.containers) && j < |cfg.containers| && Restartable(cfg.containers[j])
    requires forall i | 0 <= i < |cfg.containers| :: cfg.containers[i].id in cfg.bundles
    ensures After(cfg, steps) == Some(s) && GrantedRun(cfg, steps) && s.stop == StopReturned(true)
    ensures LiveContainer(s, |cfg.containers|, cfg.containers[j].id)
    ensures StopsEarlyOnStarted(cfg, steps, |cfg.containers|)
  {
    steps, s := SparedComesBack(cfg, j);
    steps, s := Extend(cfg, steps, s, StopSweeps);
    assert s.shared.AllExited();
    steps, s := Extend(cfg, steps, s, StopSeesAllExited);
  }

  lemma EarlyStopNeedsRestartable(cfg: Config, steps: seq<Step>, k: nat)
    requires UniqueIds(cfg.containers) && HonestRun(cfg, steps) && StopsEarlyOnStarted(cfg, steps, k)
    ensures CanOverlook(cfg)
  {
    var fewer := steps[..|steps| - 1];
    var before := After(cfg, fewer).value;
    OnlyDroppedExitsAreMissed(cfg, fewer, before);
    OverlookedNeedsRestartable(cfg, fewer, before, k);
  }

  /** An early return of Stop can find a started container's process alive exactly in the pods whose
      containers all have a bundle and of which one is restarted; the same with room in the channel as
      without. */
  lemma EarlyStopFailsIff(cfg: Config)
    requires UniqueIds(cfg.containers)
    ensures (exists steps, k :: HonestRun(cfg, steps) && StopsEarlyOnStarted(cfg, steps, k)) <==> CanOverlook(cfg)
    ensures (exists steps, k :: GrantedRun(cfg, steps) && StopsEarlyOnStarted(cfg, steps, k)) <==> CanOverlook(cfg)
  {
    if CanOverlook(cfg) {
      var j :| 0 <= j < |cfg.containers| && Restartable(cfg.containers[j]);
      var steps, s := EarlyStopCanLeaveOneAlive(cfg, j);
      GrantedRunIsHonest(cfg, steps, s);
    }
    forall steps, k | HonestRun(cfg, steps) && StopsEarlyOnStarted(cfg, steps, k) ensures CanOverlook(cfg) {
      EarlyStopNeedsRestartable(cfg, steps, k);
    }
    forall steps, k | GrantedRun(cfg, steps) && StopsEarlyOnStarted(cfg, steps, k) ensures CanOverlook(cfg) {
      GrantedRunIsHonest(cfg, steps, After(cfg, steps).value);
      EarlyStopNeedsRestartable(cfg, steps, k);
    }
  }
}
