/** The pods in which the protocol can lose something: a start that is never seen to end, an exit that is
    dropped, a container that lives after an early return of Stop. For each it takes no more than that the
    first container starts. */
module LifecycleLosses {
  import opened Common
  import opened PodSpec
  import opened Lifecycle
  import opened LifecycleSafety
  import opened LifecycleAccounts
  import opened LifecycleTracking
  import opened LifecycleExits
  import opened LifecycleEarlyStop

  predicate FirstStarts(cfg: Config) {
    cfg.containers != [] && cfg.containers[0].id in cfg.bundles
  }

  /** Run has not got past its first container, and nothing was ever started. */
  ghost predicate NothingStarted(s: State) {
    && (s.run == Looping(0) || s.run == RunStarting(0, Creating) || s.run.Returned?)
    && (s.consumer == NotRunning || s.consumer == Receiving || s.consumer == Ended)
    && s.shared.pidIndex == map[] && s.lost == []
    && forall k | 0 <= k < |s.procs| :: s.procs[k].owner.None?
  }

  lemma NothingStartsStep(cfg: Config, s: State, step: Step)
    requires !FirstStarts(cfg) && NothingStarted(s) && Enabled(cfg, s, step)
    ensures NothingStarted(Next(cfg, s, step))
  {
  }

  lemma {:induction false} NothingEverStarts(cfg: Config, steps: seq<Step>, s: State)
    requires !FirstStarts(cfg) && After(cfg, steps) == Some(s)
    ensures NothingStarted(s)
  {
    if steps != [] {
      var before := After(cfg, steps[..|steps| - 1]).value;
      NothingEverStarts(cfg, steps[..|steps| - 1], before);
      NothingStartsStep(cfg, before, steps[|steps| - 1]);
    }
  }

  // A start that is never seen to end

  lemma FirstIsLost(cfg: Config) returns (steps: seq<Step>, s: State)
    requires FirstStarts(cfg)
    ensures After(cfg, steps) == Some(s) && cfg.containers[0].id in s.lost
  {
    steps, s := RunnerLaunches(cfg, [], Initial(), 1);
    AfterOneMore(cfg, steps, Registers(Runner, 0));
    steps, s := steps + [Registers(Runner, 0)], Next(cfg, s, Registers(Runner, 0));
    assert s.lost[|s.lost| - 1] == cfg.containers[0].id;
  }

  predicate LosesStart(cfg: Config, steps: seq<Step>) {
    After(cfg, steps).Some? && After(cfg, steps).value.lost != []
  }

  lemma StartCanBeLostIff(cfg: Config)
    ensures (exists steps :: LosesStart(cfg, steps)) <==> FirstStarts(cfg)
  {
    if FirstStarts(cfg) {
      var steps, s := FirstIsLost(cfg);
      assert LosesStart(cfg, steps);
    } else {
      forall steps ensures !LosesStart(cfg, steps) {
        if After(cfg, steps).Some? {
          NothingEverStarts(cfg, steps, After(cfg, steps).value);
        }
      }
    }
  }

  // An exit that is dropped

  /** The first container runs with pid 1, nobody listens, and n other processes have come and gone. */
  ghost predicate Filled(cfg: Config, s: State, n: nat) {
    && cfg.containers != [] && s.run == Looping(1) && s.consumer == NotRunning && s.hand == None && !s.closed
    && s.shared.pidIndex == map[1 := cfg.containers[0].id]
    && |s.procs| == n + 1 && s.procs[0] == Process(1, Alive, Some(cfg.containers[0].id))
    && (forall k | 1 <= k <= n :: s.procs[k].pid == k + 1 && s.procs[k].phase.Collected?)
    && |s.channel| == n && (forall i | 0 <= i < n :: s.channel[i].pid == i + 2)
  }

  /** A process the supervisor knows nothing of comes and goes, and its event waits in the channel. */
  lemma OneComesAndGoes(cfg: Config, steps: seq<Step>, s: State, pid: int) returns (more: seq<Step>, next: State)
    requires After(cfg, steps) == Some(s) && GrantedRun(cfg, steps) && RunInBounds(cfg, s)
    requires PidFree(s, pid) && !PidInFlight(s, pid) && s.hand == None && !s.closed && |s.channel| < CHANNEL_SIZE
    ensures After(cfg, more) == Some(next) && GrantedRun(cfg, more)
    ensures next == s.(procs := s.procs + [Process(pid, Collected, None)],
                       channel := s.channel + [Reaped(pid, FAILED, |s.procs|)])
  {
    var n := |s.procs|;
    more, next := Extend(cfg, steps, s, OtherProcessStarts(pid));
    more, next := ExitIsCollected(cfg, more, next, n);
    assert next.procs == s.procs + [Process(pid, Collected, None)];
    more, next := Extend(cfg, more, next, ReaperPushes);
  }

  lemma FreshForFilled(cfg: Config, s: State, n: nat)
    requires Filled(cfg, s, n)
    ensures PidFree(s, n + 2) && !PidInFlight(s, n + 2)
  {
  }

  lemma OneMoreFilled(cfg: Config, s: State, next: State, n: nat)
    requires Filled(cfg, s, n)
    requires next == s.(procs := s.procs + [Process(n + 2, Collected, None)],
                        channel := s.channel + [Reaped(n + 2, FAILED, n + 1)])
    ensures Filled(cfg, next, n + 1)
  {
  }

  lemma OneMoreEvent(cfg: Config, steps: seq<Step>, s: State, n: nat) returns (more: seq<Step>, next: State)
    requires After(cfg, steps) == Some(s) && GrantedRun(cfg, steps) && Filled(cfg, s, n) && n < CHANNEL_SIZE
    ensures After(cfg, more) == Some(next) && GrantedRun(cfg, more) && Filled(cfg, next, n + 1)
  {
    FreshForFilled(cfg, s, n);
    more, next := OneComesAndGoes(cfg, steps, s, n + 2);
    OneMoreFilled(cfg, s, next, n);
  }

  lemma {:induction false} FillChannel(cfg: Config, n: nat) returns (steps: seq<Step>, s: State)
    requires FirstStarts(cfg) && n <= CHANNEL_SIZE
    ensures After(cfg, steps) == Some(s) && GrantedRun(cfg, steps) && Filled(cfg, s, n)
  {
    if n == 0 {
      steps, s := RunnerStarts(cfg, [], Initial(), 1);
      assert s.shared.pidIndex == map[1 := cfg.containers[0].id];
    } else {
      steps, s := FillChannel(cfg, n - 1);
      steps, s := OneMoreEvent(cfg, steps, s, n - 1);
    }
  }

  lemma ExtendHonest(cfg: Config, steps: seq<Step>, s: State, step: Step) returns (more: seq<Step>, next: State)
    requires After(cfg, steps) == Some(s) && HonestRun(cfg, steps) && Enabled(cfg, s, step) && Honest(s, step)
    ensures After(cfg, more) == Some(next) && HonestRun(cfg, more) && next == Next(cfg, s, step)
  {
    AfterOneMore(cfg, steps, step);
    assert (steps + [step])[..|steps|] == steps;
    more, next := steps + [step], Next(cfg, s, step);
  }

  lemma FirstIsDropped(cfg: Config) returns (steps: seq<Step>, s: State)
    requires UniqueIds(cfg.containers) && FirstStarts(cfg)
    ensures After(cfg, steps) == Some(s) && HonestRun(cfg, steps)
    ensures 0 in s.dropped && |s.procs| > 0 && s.procs[0].owner == Some(cfg.containers[0].id)
  {
    steps, s := FillChannel(cfg, CHANNEL_SIZE);
    GrantedRunIsHonest(cfg, steps, s);
    steps, s := ExtendHonest(cfg, steps, s, ProcessExits(0, FAILED));
    steps, s := ExtendHonest(cfg, steps, s, ReaperCollects(0));
    steps, s := ExtendHonest(cfg, steps, s, ReaperPushes);
  }

  predicate DropsExit(cfg: Config, steps: seq<Step>, k: nat) {
    && After(cfg, steps).Some?
    && var s := After(cfg, steps).value;
       k in s.dropped && k < |s.procs| && s.procs[k].owner.Some?
  }

  /** Even with true pids and none reused: the channel fills up while Run is still starting containers. */
  lemma ExitCanBeDroppedIff(cfg: Config)
    requires UniqueIds(cfg.containers)
    ensures (exists steps, k :: HonestRun(cfg, steps) && DropsExit(cfg, steps, k)) <==> FirstStarts(cfg)
  {
    if FirstStarts(cfg) {
      var steps, s := FirstIsDropped(cfg);
      assert DropsExit(cfg, steps, 0);
    } else {
      forall steps, k ensures !DropsExit(cfg, steps, k) {
        if After(cfg, steps).Some? {
          NothingEverStarts(cfg, steps, After(cfg, steps).value);
        }
      }
    }
  }

  // A container that lives after an early return of Stop

  predicate LivesAfterEarlyStop(cfg: Config, steps: seq<Step>, k: nat) {
    && After(cfg, steps).Some?
    && var s := After(cfg, steps).value;
       s.stop == StopReturned(true) && k < |s.procs| && s.procs[k].owner.Some? && !s.procs[k].phase.Collected?
  }

  lemma StopComesFirst(cfg: Config) returns (steps: seq<Step>, s: State)
    requires FirstStarts(cfg)
    ensures After(cfg, steps) == Some(s) && GrantedRun(cfg, steps) && LivesAfterEarlyStop(cfg, steps, 0)
  {
    steps, s := Extend(cfg, [], Initial(), StopSweeps);
    assert s.shared.AllExited();
    steps, s := Extend(cfg, steps, s, StopSeesAllExited);
    steps, s := RunnerStarts(cfg, steps, s, 1);
  }

  /** Before the first record every record has an exit, so Stop can return early and Run go on to start
      containers that were never swept. */
  lemma EarlyStopFailsLaterIff(cfg: Config)
    ensures (exists steps, k :: GrantedRun(cfg, steps) && LivesAfterEarlyStop(cfg, steps, k)) <==> FirstStarts(cfg)
    ensures (exists steps, k :: LivesAfterEarlyStop(cfg, steps, k)) <==> FirstStarts(cfg)
  {
    if FirstStarts(cfg) {
      var steps, s := StopComesFirst(cfg);
      assert GrantedRun(cfg, steps) && LivesAfterEarlyStop(cfg, steps, 0);
    } else {
      forall steps, k ensures !LivesAfterEarlyStop(cfg, steps, k) {
        if After(cfg, steps).Some? {
          NothingEverStarts(cfg, steps, After(cfg, steps).value);
        }
      }
    }
  }
}
