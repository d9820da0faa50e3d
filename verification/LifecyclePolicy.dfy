/** What the restart policy makes of each exit: over every run, which containers come back and how often. */
module LifecyclePolicy {
  import opened Common
  import opened PodSpec
  import opened Lifecycle
  import opened LifecycleSafety
  import opened LifecycleAccounts

  /** Whenever the consumer decides about an exit: it restarts the container iff Stop has not swept it and its
      policy is always, or on-failure and the exit was a failing one; and gives it up otherwise. */
  lemma DecidesByPolicy(cfg: Config, steps: seq<Step>, s: State, c: Container)
    requires UniqueIds(cfg.containers) && After(cfg, steps) == Some(s)
    requires c in cfg.containers && s.consumer.Deciding? && s.consumer.id == c.id
    ensures c.id in s.shared.states && Enabled(cfg, s, Decides)
    ensures var status := s.consumer.ev.status;
            Next(cfg, s, Decides).consumer ==
            if && !s.shared.states[c.id].stopped
               && (c.restart == "always" || (c.restart == "on-failure" && (status.code != 0 || status.signaled)))
            then Restarting(c.id, Creating) else Closing(c.id)
  {
    EveryRunIsSafe(cfg, steps);
    assert InConsumer(s, c.id);
    var j :| 0 <= j < |cfg.containers| && cfg.containers[j] == c;
    assert cfg.containers[j].id in s.shared.states;
  }

  /** How many exits a container has behind it that did not lead to a further start. */
  function Settled(s: State, id: string): nat {
    if InConsumer(s, id) || IsDone(s, id) then 1 else 0
  }

  ghost predicate Exact(s: State, id: string) {
    && Exits(s.handled, id) + (if StartsOf(s, id) >= 1 then 1 else 0) == StartsOf(s, id) + Settled(s, id)
    && (StartsOf(s, id) == 0 ==> !IsDone(s, id))
  }

  lemma RegistersKeepsExact(cfg: Config, s: State, t: Thread, pid: int, id: string)
    requires UniqueIds(cfg.containers) && Safe(cfg, s) && CanRegister(cfg, s, t) && Exact(s, id)
    ensures Exact(RegisteredBy(cfg, s, t, pid), id)
  {
    var next, own := RegisteredBy(cfg, s, t, pid), StartId(cfg, s, t);
    assert next.handled == s.handled;
    assert IsDone(next, id) == IsDone(s, id);
    assert StartsOf(next, id) == StartsOf(s, id) + if own == id then 1 else 0;
    if t.Runner? {
      assert next.consumer == s.consumer;
      assert InConsumer(next, id) == InConsumer(s, id);
      assert own == id ==> StartsOf(s, id) == 0 && !InConsumer(s, id);
    } else {
      assert InConsumer(s, own) && !InConsumer(next, id);
      assert InConsumer(s, id) ==> id == own;
    }
  }

  lemma ReceivesKeepsExact(cfg: Config, s: State, id: string)
    requires Safe(cfg, s) && CanReceive(s) && Exact(s, id)
    ensures Exact(Received(s), id)
  {
    var ev := s.channel[0];
    assert !InConsumer(s, id);
    if ev.pid in s.shared.pidIndex {
      ExitsOneMore(s.handled, Handled(s.shared.pidIndex[ev.pid], ev.serial, ev.status.Failing()), id);
    }
  }

  lemma RecordsKeepExact(cfg: Config, s: State, step: Step, id: string)
    requires Safe(cfg, s) && UniqueIds(cfg.containers) && Enabled(cfg, s, step) && Exact(s, id)
    requires step.RunBegins? || step.ClosesDone? || step.StopSweeps?
    ensures Exact(Next(cfg, s, step), id)
  {
    SafeForAccounts(cfg, s);
    assert s.consumer.Closing? ==> InConsumer(s, s.consumer.id);
  }

  lemma OthersKeepConsumer(cfg: Config, s: State, step: Step, id: string)
    requires Safe(cfg, s) && Enabled(cfg, s, step) && !ChangesStates(step)
    ensures InConsumer(Next(cfg, s, step), id) == InConsumer(s, id)
  {}

  lemma OthersKeepExact(cfg: Config, s: State, step: Step, id: string)
    requires Safe(cfg, s) && Enabled(cfg, s, step) && Exact(s, id) && !ChangesStates(step)
    ensures Exact(Next(cfg, s, step), id)
  {
    OtherStepsKeepShared(cfg, s, step);
    OthersKeepConsumer(cfg, s, step, id);
  }

  lemma StepKeepsExact(cfg: Config, s: State, step: Step, id: string)
    requires UniqueIds(cfg.containers) && Safe(cfg, s) && Enabled(cfg, s, step) && Exact(s, id)
    ensures Exact(Next(cfg, s, step), id)
  {
    match step {
      case Registers(t, pid) => RegistersKeepsExact(cfg, s, t, pid, id);
      case Receives => ReceivesKeepsExact(cfg, s, id);
      case RunBegins => RecordsKeepExact(cfg, s, step, id);
      case ClosesDone => RecordsKeepExact(cfg, s, step, id);
      case StopSweeps => RecordsKeepExact(cfg, s, step, id);
      case _ => OthersKeepExact(cfg, s, step, id);
    }
  }

  lemma {:induction false} EveryRunIsExact(cfg: Config, steps: seq<Step>, s: State, id: string)
    requires UniqueIds(cfg.containers) && After(cfg, steps) == Some(s)
    ensures Exact(s, id)
  {
    if steps != [] {
      var before := After(cfg, steps[..|steps| - 1]).value;
      EveryRunIsExact(cfg, steps[..|steps| - 1], before, id);
      EveryRunIsSafe(cfg, steps[..|steps| - 1]);
      StepKeepsExact(cfg, before, steps[|steps| - 1], id);
    }
  }

  /** Over every run, whatever fails: each handled exit of a started container leads to one more start, but for
      the one that the consumer is at work on and the one after which its done was closed. */
  lemma StartsFollowExits(cfg: Config, steps: seq<Step>, s: State, id: string)
    requires UniqueIds(cfg.containers) && After(cfg, steps) == Some(s) && StartsOf(s, id) >= 1
    ensures StartsOf(s, id) + (if InConsumer(s, id) || IsDone(s, id) then 1 else 0) == 1 + Exits(s.handled, id)
    ensures !(InConsumer(s, id) && IsDone(s, id))
  {
    EveryRunIsExact(cfg, steps, s, id);
    EveryRunIsSafe(cfg, steps);
  }

  /** A step at which the consumer fails to restart a container. */
  predicate FailedRestart(cfg: Config, steps: seq<Step>, i: nat, id: string)
    requires i < |steps|
  {
    var before := After(cfg, steps[..i]);
    && before.Some? && before.value.consumer.Restarting? && before.value.consumer.id == id
    && (steps[i] == BundleMissing(Consumer) || steps[i] == CreateFails(Consumer) || steps[i] == StartFails(Consumer))
  }

  /** Stop has not swept, and no restart of this container has failed. */
  ghost predicate Undisturbed(cfg: Config, steps: seq<Step>, id: string) {
    forall i | 0 <= i < |steps| :: steps[i] != StopSweeps && !FailedRestart(cfg, steps, i, id)
  }

  lemma UndisturbedBefore(cfg: Config, steps: seq<Step>, id: string)
    requires steps != [] && Undisturbed(cfg, steps, id)
    ensures Undisturbed(cfg, steps[..|steps| - 1], id)
    ensures !FailedRestart(cfg, steps, |steps| - 1, id) && steps[|steps| - 1] != StopSweeps
  {
    var fewer := steps[..|steps| - 1];
    forall i | 0 <= i < |fewer| ensures fewer[i] != StopSweeps && !FailedRestart(cfg, fewer, i, id) {
      assert fewer[..i] == steps[..i] && fewer[i] == steps[i];
      assert steps[i] != StopSweeps && !FailedRestart(cfg, steps, i, id);
    }
  }

  /** The failing exit of a container that the consumer is about to answer with a start. */
  predicate ComesBack(s: State, id: string) {
    || (s.consumer.Restarting? && s.consumer.id == id)
    || (s.consumer.Deciding? && s.consumer.id == id
        && (s.consumer.ev.status.code != 0 || s.consumer.ev.status.signaled))
  }

  /** The state of a container that has been left to its policy. */
  ghost predicate Governed(s: State, id: string) {
    id in s.shared.states ==>
      var st := s.shared.states[id];
      && !st.stopped
      && (st.restart == "always" ==> !st.done && !(s.consumer.Closing? && s.consumer.id == id))
      && (st.restart == "on-failure" ==>
            st.starts + (if ComesBack(s, id) then 1 else 0) ==
            Failures(s.handled, id) + (if st.starts >= 1 then 1 else 0))
      && (st.restart != "always" && st.restart != "on-failure" ==>
            st.starts <= 1 && !(s.consumer.Restarting? && s.consumer.id == id))
  }

  lemma RegistersKeepsGoverned(cfg: Config, s: State, t: Thread, pid: int, id: string)
    requires UniqueIds(cfg.containers) && Safe(cfg, s) && CanRegister(cfg, s, t) && Governed(s, id)
    ensures Governed(RegisteredBy(cfg, s, t, pid), id)
  {
    var next, own := RegisteredBy(cfg, s, t, pid), StartId(cfg, s, t);
    assert next.handled == s.handled;
    if t.Runner? {
      assert next.consumer == s.consumer && s.consumer.NotRunning?;
      assert ComesBack(next, id) == ComesBack(s, id);
      assert own == id ==> StartsOf(s, id) == 0;
    } else {
      assert InConsumer(s, own);
      assert !ComesBack(next, id) && (ComesBack(s, id) <==> own == id);
    }
  }

  lemma ReceivesKeepsGoverned(cfg: Config, s: State, id: string)
    requires Safe(cfg, s) && CanReceive(s) && Governed(s, id)
    ensures Governed(Received(s), id)
  {
    var ev := s.channel[0];
    if ev.pid in s.shared.pidIndex {
      var own := s.shared.pidIndex[ev.pid];
      assert s.shared.states[own].starts >= 1;
      ExitsOneMore(s.handled, Handled(own, ev.serial, ev.status.Failing()), id);
    }
  }

  lemma RecordsKeepGoverned(cfg: Config, s: State, step: Step, id: string)
    requires Safe(cfg, s) && UniqueIds(cfg.containers) && Enabled(cfg, s, step) && Governed(s, id)
    requires step.RunBegins? || step.ClosesDone?
    requires step.RunBegins? ==> id !in s.shared.states ==> Failures(s.handled, id) == 0
    ensures Governed(Next(cfg, s, step), id)
  {
    SafeForAccounts(cfg, s);
    assert s.consumer.Closing? ==> InConsumer(s, s.consumer.id);
  }

  lemma OthersKeepGoverned(cfg: Config, s: State, step: Step, id: string)
    requires Safe(cfg, s) && Enabled(cfg, s, step) && Governed(s, id) && !ChangesStates(step) && !step.Decides?
    requires step.BundleMissing? || step.CreateFails? || step.StartFails? ==>
               step.t.Consumer? ==> s.consumer.id != id
    ensures Governed(Next(cfg, s, step), id)
  {
    OtherStepsKeepShared(cfg, s, step);
    var next := Next(cfg, s, step);
    assert ComesBack(next, id) == ComesBack(s, id);
    assert next.consumer.Closing? && next.consumer.id == id ==> s.consumer == next.consumer;
    assert next.consumer.Restarting? && next.consumer.id == id ==> s.consumer.Restarting? && s.consumer.id == id;
  }

  lemma DecidesKeepsGoverned(cfg: Config, s: State, id: string)
    requires Safe(cfg, s) && Enabled(cfg, s, Decides) && Governed(s, id)
    ensures Governed(Judged(cfg, s), id)
  {
    var next := Judged(cfg, s);
    assert Declared(cfg.containers, s.consumer.id);
    assert next.shared == s.shared && next.handled == s.handled;
    if s.consumer.id == id {
      assert ComesBack(next, id) <==> next.consumer.Restarting?;
    } else {
      assert !ComesBack(next, id) && !ComesBack(s, id);
    }
  }

  /** Only failing exits are counted as failures, so there are at most as many. */
  lemma {:induction false} FewerFailures(handled: seq<Handled>, id: string)
    ensures Failures(handled, id) <= Exits(handled, id)
  {
    if handled != [] {
      FewerFailures(handled[..|handled| - 1], id);
    }
  }

  lemma SharedStepKeepsGoverned(cfg: Config, s: State, step: Step, id: string)
    requires UniqueIds(cfg.containers) && Safe(cfg, s) && Enabled(cfg, s, step) && Governed(s, id)
    requires ChangesStates(step) && !step.StopSweeps? && (id !in s.shared.states ==> Failures(s.handled, id) == 0)
    ensures Governed(Next(cfg, s, step), id)
  {
    match step {
      case Registers(t, pid) => RegistersKeepsGoverned(cfg, s, t, pid, id);
      case Receives => ReceivesKeepsGoverned(cfg, s, id);
      case _ => RecordsKeepGoverned(cfg, s, step, id);
    }
  }

  lemma StepKeepsGoverned(cfg: Config, s: State, step: Step, id: string)
    requires UniqueIds(cfg.containers) && Safe(cfg, s) && Enabled(cfg, s, step) && Governed(s, id)
    requires !step.StopSweeps? && (id !in s.shared.states ==> Failures(s.handled, id) == 0)
    requires s.consumer.Restarting? && s.consumer.id == id ==>
               step != BundleMissing(Consumer) && step != CreateFails(Consumer) && step != StartFails(Consumer)
    ensures Governed(Next(cfg, s, step), id)
  {
    if ChangesStates(step) {
      SharedStepKeepsGoverned(cfg, s, step, id);
    } else if step.Decides? {
      DecidesKeepsGoverned(cfg, s, id);
    } else {
      OthersKeepGoverned(cfg, s, step, id);
    }
  }

  lemma {:induction false} EveryRunIsGoverned(cfg: Config, steps: seq<Step>, s: State, id: string)
    requires UniqueIds(cfg.containers) && After(cfg, steps) == Some(s) && Undisturbed(cfg, steps, id)
    ensures Governed(s, id)
  {
    if steps != [] {
      var fewer, step := steps[..|steps| - 1], steps[|steps| - 1];
      var before := After(cfg, fewer).value;
      UndisturbedBefore(cfg, steps, id);
      EveryRunIsGoverned(cfg, fewer, before, id);
      EveryRunIsSafe(cfg, fewer);
      EveryRunIsExact(cfg, fewer, before, id);
      FewerFailures(before.handled, id);
      StepKeepsGoverned(cfg, before, step, id);
    }
  }

  /** Left to its policy, a started container starts exactly as often as it says: under always once for each
      handled exit, and its done is never closed; under on-failure once for each failing one, and its done is
      closed after the first clean one; and else once. */
  lemma PolicyFixesStarts(cfg: Config, steps: seq<Step>, s: State, c: Container)
    requires UniqueIds(cfg.containers) && After(cfg, steps) == Some(s) && Undisturbed(cfg, steps, c.id)
    requires c in cfg.containers && StartsOf(s, c.id) >= 1
    ensures c.restart == "always" ==>
              && !IsDone(s, c.id)
              && StartsOf(s, c.id) + (if InConsumer(s, c.id) then 1 else 0) == 1 + Exits(s.handled, c.id)
    ensures c.restart == "on-failure" ==>
              && StartsOf(s, c.id) + (if ComesBack(s, c.id) then 1 else 0) == 1 + Failures(s.handled, c.id)
              && (IsDone(s, c.id) ==> Exits(s.handled, c.id) == Failures(s.handled, c.id) + 1)
    ensures c.restart != "always" && c.restart != "on-failure" ==>
              && StartsOf(s, c.id) == 1
              && (IsDone(s, c.id) <==> Exits(s.handled, c.id) == 1 && !InConsumer(s, c.id))
  {
    EveryRunIsSafe(cfg, steps);
    EveryRunIsGoverned(cfg, steps, s, c.id);
    StartsFollowExits(cfg, steps, s, c.id);
    var j :| 0 <= j < |cfg.containers| && cfg.containers[j] == c;
    assert cfg.containers[j].id in s.shared.states;
  }

  /** The consumer has given a container up that Stop did not sweep and that is always to be restarted. */
  predicate GivenUp(s: State, id: string) {
    && id in s.shared.states && s.shared.states[id].restart == "always" && !s.shared.states[id].stopped
    && (s.shared.states[id].done || s.consumer == Closing(id))
  }

  lemma OthersGiveNothingUp(cfg: Config, s: State, step: Step, id: string)
    requires Safe(cfg, s) && Enabled(cfg, s, step) && !GivenUp(s, id) && GivenUp(Next(cfg, s, step), id)
    requires !ChangesStates(step)
    ensures s.consumer.Restarting? && s.consumer.id == id
    ensures step == BundleMissing(Consumer) || step == CreateFails(Consumer) || step == StartFails(Consumer)
  {
    OtherStepsKeepShared(cfg, s, step);
    DecidingIsDeclared(cfg, s);
  }

  lemma DecidingIsDeclared(cfg: Config, s: State)
    requires Safe(cfg, s)
    ensures s.consumer.Deciding? ==> Declared(cfg.containers, s.consumer.id)
  {
    if s.consumer.Deciding? {
      assert InConsumer(s, s.consumer.id);
    }
  }

  lemma RecordsGiveNothingUp(cfg: Config, s: State, step: Step, id: string)
    requires Safe(cfg, s) && UniqueIds(cfg.containers) && Enabled(cfg, s, step) && !GivenUp(s, id)
    requires ChangesStates(step)
    ensures !GivenUp(Next(cfg, s, step), id)
  {
    SafeForAccounts(cfg, s);
  }

  lemma FailureGivesUp(cfg: Config, s: State, step: Step, id: string)
    requires UniqueIds(cfg.containers) && Safe(cfg, s) && Enabled(cfg, s, step)
    requires !GivenUp(s, id) && GivenUp(Next(cfg, s, step), id)
    ensures s.consumer.Restarting? && s.consumer.id == id
    ensures step == BundleMissing(Consumer) || step == CreateFails(Consumer) || step == StartFails(Consumer)
  {
    if ChangesStates(step) {
      RecordsGiveNothingUp(cfg, s, step, id);
    } else {
      OthersGiveNothingUp(cfg, s, step, id);
    }
  }

  /** So the done of a container that is always restarted closes, Stop not having swept it, only after a restart
      of it has failed; and the run says which. */
  lemma {:induction false} AlwaysEndsOnlyByFailure(cfg: Config, steps: seq<Step>, s: State, id: string)
      returns (i: nat)
    requires UniqueIds(cfg.containers) && After(cfg, steps) == Some(s)
    requires id in s.shared.states && s.shared.states[id].restart == "always" && !s.shared.states[id].stopped
    requires s.shared.states[id].done || s.consumer == Closing(id)
    ensures i < |steps| && FailedRestart(cfg, steps, i, id)
  {
    var fewer, step := steps[..|steps| - 1], steps[|steps| - 1];
    var before := After(cfg, fewer).value;
    EveryRunIsSafe(cfg, fewer);
    if GivenUp(before, id) {
      i := AlwaysEndsOnlyByFailure(cfg, fewer, before, id);
      assert fewer[..i] == steps[..i];
    } else {
      FailureGivesUp(cfg, before, step, id);
      i := |steps| - 1;
    }
  }

  // The start loop

  predicate HasStarted(s: State, id: string) {
    StartsOf(s, id) >= 1
  }

  /** Run goes past a container only once it has been started, and waits only when all have. */
  predicate StartedSoFar(cfg: Config, s: State) {
    forall j | 0 <= j < |cfg.containers| ::
      match s.run
      case Looping(i) => j < i ==> HasStarted(s, cfg.containers[j].id)
      case RunStarting(i, _) => j < i ==> HasStarted(s, cfg.containers[j].id)
      case Waiting(_) => HasStarted(s, cfg.containers[j].id)
      case Returned(result) => result != RunStartFailed ==> HasStarted(s, cfg.containers[j].id)
  }

  lemma StepKeepsStarted(cfg: Config, s: State, step: Step, id: string)
    requires UniqueIds(cfg.containers) && Safe(cfg, s) && Enabled(cfg, s, step)
    ensures HasStarted(s, id) ==> HasStarted(Next(cfg, s, step), id)
    ensures step.Registers? && StartId(cfg, s, step.t) == id ==> HasStarted(Next(cfg, s, step), id)
  {
    SafeForAccounts(cfg, s);
    if !ChangesStates(step) {
      OtherStepsKeepShared(cfg, s, step);
    }
  }

  lemma StepKeepsStartedSoFar(cfg: Config, s: State, step: Step)
    requires UniqueIds(cfg.containers) && Safe(cfg, s) && Enabled(cfg, s, step) && StartedSoFar(cfg, s)
    ensures StartedSoFar(cfg, Next(cfg, s, step))
  {
    forall j | 0 <= j < |cfg.containers|
      ensures HasStarted(s, cfg.containers[j].id) ==> HasStarted(Next(cfg, s, step), cfg.containers[j].id)
      ensures step.Registers? && step.t.Runner? && s.run.i == j ==>
                HasStarted(Next(cfg, s, step), cfg.containers[j].id)
    {
      StepKeepsStarted(cfg, s, step, cfg.containers[j].id);
    }
  }

  lemma {:induction false} EveryRunStartsInOrder(cfg: Config, steps: seq<Step>, s: State)
    requires UniqueIds(cfg.containers) && After(cfg, steps) == Some(s)
    ensures StartedSoFar(cfg, s)
  {
    if steps != [] {
      var before := After(cfg, steps[..|steps| - 1]).value;
      EveryRunStartsInOrder(cfg, steps[..|steps| - 1], before);
      EveryRunIsSafe(cfg, steps[..|steps| - 1]);
      StepKeepsStartedSoFar(cfg, before, steps[|steps| - 1]);
    }
  }

  /** Over every run: while Run is at a container, those before it have been started and those behind it have no
      record; and it waits for the containers, or returns for another reason than a failed start, only when all
      have been started. */
  lemma RunWaitsForStarted(cfg: Config, steps: seq<Step>, s: State, j: nat)
    requires UniqueIds(cfg.containers) && After(cfg, steps) == Some(s) && j < |cfg.containers|
    ensures s.run.Looping? || s.run.RunStarting? ==>
              && (j < s.run.i ==> StartsOf(s, cfg.containers[j].id) >= 1)
              && (j > s.run.i ==> cfg.containers[j].id !in s.shared.states)
    ensures s.run.Waiting? || s.run == Returned(RunOk) || s.run == Returned(RunCancelled) ==>
              StartsOf(s, cfg.containers[j].id) >= 1
  {
    EveryRunStartsInOrder(cfg, steps, s);
    EveryRunIsSafe(cfg, steps);
    assert HasStarted(s, cfg.containers[j].id) <==> StartsOf(s, cfg.containers[j].id) >= 1;
  }

  /** The reaper keeps an event iff fewer than 64 are waiting. */
  lemma PushInNumbers(cfg: Config, s: State)
    requires Enabled(cfg, s, ReaperPushes)
    ensures var next := Next(cfg, s, ReaperPushes);
            && next.hand == None
            && (if |s.channel| < 64 then next.channel == s.channel + [s.hand.value] && next.dropped == s.dropped
                else next.channel == s.channel && next.dropped == s.dropped + {s.hand.value.serial})
  {}
}
