/** Invariants of the supervisor protocol under every interleaving, runtime failure, dropped event
    and pid reuse. */
module LifecycleSafety {
  import opened Common
  import opened PodSpec
  import opened Lifecycle

  /** The consumer has taken an exit of this container and not finished with it. */
  predicate InConsumer(s: State, id: string) {
    (s.consumer.Deciding? || s.consumer.Restarting? || s.consumer.Closing?) && s.consumer.id == id
  }

  /** Some thread is between taking up this container and letting go of it. */
  predicate Busy(cfg: Config, s: State, id: string) {
    (s.run.RunStarting? && s.run.i < |cfg.containers| && cfg.containers[s.run.i].id == id) || InConsumer(s, id)
  }

  /** How many containers Run has taken up, unless it gave up on the way. */
  function Progress(cfg: Config, s: State): nat {
    match s.run
    case Looping(i) => i
    case RunStarting(i, _) => i + 1
    case _ => |cfg.containers|
  }

  ghost predicate Structure(cfg: Config, s: State) {
    && RunInBounds(cfg, s)
    && (s.consumer.NotRunning? <==> s.run.Looping? || s.run.RunStarting? || s.run == Returned(RunStartFailed))
    && (forall id | id in s.shared.states :: Declared(cfg.containers, id))
    && (s.run != Returned(RunStartFailed) ==>
          forall j | 0 <= j < |cfg.containers| :: cfg.containers[j].id in s.shared.states <==> j < Progress(cfg, s))
    && (s.consumer.NotRunning? ==>
          forall id | id in s.shared.states :: !s.shared.states[id].done && s.shared.states[id].lastExit.None?)
    && (s.run.RunStarting? ==> s.shared.states[cfg.containers[s.run.i].id].starts == 0)
    && (forall j | 0 <= j < |cfg.containers| && cfg.containers[j].id in s.shared.states ::
          s.shared.states[cfg.containers[j].id].restart == cfg.containers[j].restart)
  }

  predicate IsDone(s: State, id: string) {
    id in s.shared.states && s.shared.states[id].done
  }

  /** The pid index names running containers only: each at most once, none that is done. */
  ghost predicate Index(cfg: Config, s: State) {
    && (forall p, q | p in s.shared.pidIndex && q in s.shared.pidIndex ::
          s.shared.pidIndex[p] == s.shared.pidIndex[q] ==> p == q)
    && (forall p | p in s.shared.pidIndex ::
          var id := s.shared.pidIndex[p];
          id in s.shared.states && !s.shared.states[id].done && !Busy(cfg, s, id) && s.shared.states[id].starts >= 1)
    && (forall id | InConsumer(s, id) ::
          id in s.shared.states && !s.shared.states[id].done && s.shared.states[id].starts >= 1)
    && (s.run.Waiting? ==>
          s.run.i <= |cfg.containers| && forall j | 0 <= j < s.run.i :: IsDone(s, cfg.containers[j].id))
    && (s.run == Returned(RunOk) ==>
          forall j | 0 <= j < |cfg.containers| :: IsDone(s, cfg.containers[j].id))
  }

  ghost predicate Safe(cfg: Config, s: State) {
    Structure(cfg, s) && Index(cfg, s)
  }

  /** Steps of the kernel, the reaper and Stop's waiting loop leave what the invariants speak of alone. */
  predicate Outside(step: Step) {
    step.StopSeesAllExited? || step.DeadlineFires? || step.Cancels? || step.OtherProcessStarts? || step.ProcessExits?
    || step.ReaperCollects? || step.ReaperPushes? || step.ReaperCloses?
  }

  lemma OutsideKeepsSafe(cfg: Config, s: State, step: Step)
    requires Safe(cfg, s) && Enabled(cfg, s, step) && Outside(step)
    ensures Safe(cfg, Next(cfg, s, step))
  {
    var next := Next(cfg, s, step);
    assert next.shared == s.shared && next.run == s.run && next.consumer == s.consumer;
    assert forall id :: Busy(cfg, next, id) == Busy(cfg, s, id);
    assert forall id :: IsDone(next, id) == IsDone(s, id);
  }

  lemma RunBeginsKeepsSafe(cfg: Config, s: State)
    requires UniqueIds(cfg.containers) && Safe(cfg, s) && CanBegin(cfg, s)
    ensures Safe(cfg, Begun(cfg, s))
  {
    var next := Begun(cfg, s);
    var c := cfg.containers[s.run.i];
    assert Declared(cfg.containers, c.id);
    assert c.id !in s.shared.states;
  }

  lemma CreatedKeepsSafe(cfg: Config, s: State, t: Thread, pid: int)
    requires Safe(cfg, s) && AtStart(s, t)
    ensures Safe(cfg, Created(s, t, pid))
  {
    var next := Created(s, t, pid);
    assert forall id :: Busy(cfg, next, id) == Busy(cfg, s, id);
  }

  lemma StartedKeepsSafe(cfg: Config, s: State, t: Thread)
    requires Safe(cfg, s) && CanStart(s, t)
    ensures Safe(cfg, StartedOk(cfg, s, t))
  {
    var next := StartedOk(cfg, s, t);
    assert forall id :: Busy(cfg, next, id) == Busy(cfg, s, id);
  }

  lemma StartFailsKeepsSafe(cfg: Config, s: State, t: Thread)
    requires Safe(cfg, s) && AtStart(s, t)
    ensures Safe(cfg, StartFailed(s, t))
  {
    var next := StartFailed(s, t);
    assert forall id :: Busy(cfg, next, id) ==> Busy(cfg, s, id);
    assert forall id :: InConsumer(next, id) == InConsumer(s, id);
  }

  lemma RegistersKeepsStructure(cfg: Config, s: State, t: Thread, pid: int)
    requires UniqueIds(cfg.containers) && Safe(cfg, s) && CanRegister(cfg, s, t)
    ensures Structure(cfg, RegisteredBy(cfg, s, t, pid))
  {
    assert Busy(cfg, s, StartId(cfg, s, t));
  }

  lemma RegistersKeepsIndex(cfg: Config, s: State, t: Thread, pid: int)
    requires UniqueIds(cfg.containers) && Safe(cfg, s) && CanRegister(cfg, s, t)
    ensures Index(cfg, RegisteredBy(cfg, s, t, pid))
  {
    var next := RegisteredBy(cfg, s, t, pid);
    var id := StartId(cfg, s, t);
    assert Busy(cfg, s, id);
    assert forall other :: Busy(cfg, next, other) ==> Busy(cfg, s, other) && other != id;
  }

  lemma ConsumerSpawnsKeepsSafe(cfg: Config, s: State)
    requires Safe(cfg, s) && Enabled(cfg, s, ConsumerSpawns)
    ensures Safe(cfg, Next(cfg, s, ConsumerSpawns))
  {
  }

  lemma RunWaitsKeepsSafe(cfg: Config, s: State, step: Step)
    requires Safe(cfg, s) && Enabled(cfg, s, step) && (step.RunSeesDone? || step.RunSeesCancel?)
    ensures Safe(cfg, Next(cfg, s, step))
  {
    var next := Next(cfg, s, step);
    assert next.shared == s.shared && next.consumer == s.consumer;
    assert forall id :: Busy(cfg, next, id) == Busy(cfg, s, id);
  }

  lemma ReceivesKeepsSafe(cfg: Config, s: State)
    requires Safe(cfg, s) && CanReceive(s)
    ensures Safe(cfg, Received(s))
  {
    var next, ev := Received(s), s.channel[0];
    assert forall id :: !InConsumer(s, id);
    if ev.pid in s.shared.pidIndex {
      var own := s.shared.pidIndex[ev.pid];
      assert forall id :: InConsumer(next, id) == (id == own);
      assert forall id :: Busy(cfg, next, id) == (id == own || Busy(cfg, s, id));
      assert forall id :: IsDone(next, id) == IsDone(s, id);
    }
  }

  lemma JudgedKeepsSafe(cfg: Config, s: State)
    requires Safe(cfg, s) && s.consumer.Deciding? && s.consumer.id in s.shared.states
    ensures Safe(cfg, Judged(cfg, s))
  {
    var next := Judged(cfg, s);
    assert next.shared == s.shared && next.run == s.run;
    assert forall id :: Busy(cfg, next, id) == Busy(cfg, s, id);
    assert forall id :: InConsumer(next, id) == InConsumer(s, id);
  }

  lemma ConsumerEndsKeepsSafe(cfg: Config, s: State)
    requires Safe(cfg, s) && s.consumer.Receiving?
    ensures Safe(cfg, s.(consumer := Ended))
  {
    var next := s.(consumer := Ended);
    assert forall id :: Busy(cfg, next, id) == Busy(cfg, s, id);
  }

  lemma ClosesDoneKeepsSafe(cfg: Config, s: State)
    requires Safe(cfg, s) && s.consumer.Closing? && s.consumer.id in s.shared.states
    ensures Safe(cfg, DoneClosed(s))
  {
    var next := DoneClosed(s);
    assert InConsumer(s, s.consumer.id) && Busy(cfg, s, s.consumer.id);
    assert forall id :: Busy(cfg, next, id) ==> Busy(cfg, s, id);
    assert forall id :: IsDone(s, id) ==> IsDone(next, id);
  }

  lemma SweepKeepsSafe(cfg: Config, s: State)
    requires Safe(cfg, s) && Enabled(cfg, s, StopSweeps)
    ensures Safe(cfg, Next(cfg, s, StopSweeps))
  {
  }

  lemma StepKeepsSafe(cfg: Config, s: State, step: Step)
    requires UniqueIds(cfg.containers) && Safe(cfg, s) && Enabled(cfg, s, step)
    ensures Safe(cfg, Next(cfg, s, step))
  {
    match step {
      case RunBegins => RunBeginsKeepsSafe(cfg, s);
      case CreateSucceeds(t, pid) => CreatedKeepsSafe(cfg, s, t, pid);
      case StartSucceeds(t) => StartedKeepsSafe(cfg, s, t);
      case BundleMissing(t) => StartFailsKeepsSafe(cfg, s, t);
      case CreateFails(t) => StartFailsKeepsSafe(cfg, s, t);
      case StartFails(t) => StartFailsKeepsSafe(cfg, s, t);
      case Registers(t, pid) => RegistersKeepsStructure(cfg, s, t, pid); RegistersKeepsIndex(cfg, s, t, pid);
      case ConsumerSpawns => ConsumerSpawnsKeepsSafe(cfg, s);
      case RunSeesDone => RunWaitsKeepsSafe(cfg, s, step);
      case RunSeesCancel => RunWaitsKeepsSafe(cfg, s, step);
      case Receives => ReceivesKeepsSafe(cfg, s);
      case ChannelEnds => ConsumerEndsKeepsSafe(cfg, s);
      case Decides => JudgedKeepsSafe(cfg, s);
      case ClosesDone => ClosesDoneKeepsSafe(cfg, s);
      case StopSweeps => SweepKeepsSafe(cfg, s);
      case _ => OutsideKeepsSafe(cfg, s, step);
    }
  }

  lemma {:induction false} EveryRunIsSafe(cfg: Config, steps: seq<Step>)
    requires UniqueIds(cfg.containers)
    ensures After(cfg, steps).Some? ==> Safe(cfg, After(cfg, steps).value)
  {
    if steps != [] && After(cfg, steps).Some? {
      EveryRunIsSafe(cfg, steps[..|steps| - 1]);
      StepKeepsSafe(cfg, After(cfg, steps[..|steps| - 1]).value, steps[|steps| - 1]);
    }
  }

  /** Under every interleaving and failure: a container has at most one pid entry, a container whose
      done is closed has none, and no done is closed twice. */
  lemma IndexIsSound(cfg: Config, steps: seq<Step>, s: State)
    requires UniqueIds(cfg.containers) && After(cfg, steps) == Some(s)
    ensures forall p, q | p in s.shared.pidIndex && q in s.shared.pidIndex && p != q ::
              s.shared.pidIndex[p] != s.shared.pidIndex[q]
    ensures forall p | p in s.shared.pidIndex :: !IsDone(s, s.shared.pidIndex[p])
    ensures s.consumer.Closing? ==> s.consumer.id in s.shared.states && !IsDone(s, s.consumer.id)
  {
    EveryRunIsSafe(cfg, steps);
    assert s.consumer.Closing? ==> InConsumer(s, s.consumer.id);
  }

  lemma DeclaredIsDone(cfg: Config, s: State, id: string)
    requires Safe(cfg, s) && s.run == Returned(RunOk) && id in s.shared.states
    ensures IsDone(s, id)
  {
    assert Declared(cfg.containers, id);
    var j :| 0 <= j < |cfg.containers| && cfg.containers[j].id == id;
    assert IsDone(s, cfg.containers[j].id);
  }

  /** Run returns nil only when every container is done and no pid is registered any more. */
  lemma RunReturnsWhenIdle(cfg: Config, steps: seq<Step>, s: State)
    requires UniqueIds(cfg.containers) && After(cfg, steps) == Some(s) && s.run == Returned(RunOk)
    ensures s.shared.pidIndex == map[]
    ensures forall j | 0 <= j < |cfg.containers| :: IsDone(s, cfg.containers[j].id)
  {
    EveryRunIsSafe(cfg, steps);
    forall p ensures p !in s.shared.pidIndex {
      if p in s.shared.pidIndex {
        DeclaredIsDone(cfg, s, s.shared.pidIndex[p]);
      }
    }
  }

  /** The branch for a container missing from the spec is never taken, and no step finds a container
      without state. */
  lemma SpecIsAlwaysFound(cfg: Config, steps: seq<Step>, s: State)
    requires UniqueIds(cfg.containers) && After(cfg, steps) == Some(s)
    ensures s.consumer.Deciding? ==> Declared(cfg.containers, s.consumer.id)
    ensures s.consumer.Deciding? || s.consumer.Closing? ==> s.consumer.id in s.shared.states
    ensures forall p | p in s.shared.pidIndex :: s.shared.pidIndex[p] in s.shared.states
    ensures forall t: Thread | AtStart(s, t) :: RunInBounds(cfg, s) && StartId(cfg, s, t) in s.shared.states
  {
    EveryRunIsSafe(cfg, steps);
    assert s.consumer.Deciding? || s.consumer.Closing? || s.consumer.Restarting? ==> InConsumer(s, s.consumer.id);
  }
}
