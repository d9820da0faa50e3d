/** When Run can still return nil: a container that the supervisor has lost track of blocks it for ever, and
    nothing else does. */
module LifecycleReturn {
  import opened Common
  import opened PodSpec
  import opened Lifecycle
  import opened LifecycleSafety
  import opened LifecycleAccounts
  import opened LifecycleEarlyStop

  /** A container that was taken up and is not done, although no pid is registered for it and no thread is
      about to do anything for it. */
  ghost predicate Stranded(cfg: Config, s: State, id: string) {
    id in s.shared.states && !IsDone(s, id) && !IsRegistered(s, id) && !Busy(cfg, s, id)
  }

  lemma RegistersKeepsStranded(cfg: Config, s: State, t: Thread, pid: int, id: string)
    requires Safe(cfg, s) && Stranded(cfg, s, id) && CanRegister(cfg, s, t)
    ensures Stranded(cfg, RegisteredBy(cfg, s, t, pid), id)
  {
    var next, own := RegisteredBy(cfg, s, t, pid), StartId(cfg, s, t);
    SafeForAccounts(cfg, s);
    assert Busy(cfg, s, own);
    if pid > 0 {
      NamesAfterAdding(s.shared.pidIndex, pid, own, id);
      assert next.shared.pidIndex == s.shared.pidIndex[pid := own];
    }
  }

  lemma ReceivesKeepsStranded(cfg: Config, s: State, id: string)
    requires Safe(cfg, s) && Stranded(cfg, s, id) && CanReceive(s)
    ensures Stranded(cfg, Received(s), id)
  {
    var pid := s.channel[0].pid;
    if pid in s.shared.pidIndex {
      SafeForAccounts(cfg, s);
      NamesAfterRemoving(s.shared.pidIndex, pid, id);
      assert Names(s.shared.pidIndex, s.shared.pidIndex[pid]);
    }
  }

  /** A thread never turns to a container it has let go of: Run takes up new ones, and the consumer those
      whose exit it hears of. */
  lemma OthersKeepIdle(cfg: Config, s: State, step: Step, id: string)
    requires Safe(cfg, s) && Enabled(cfg, s, step) && !ChangesStates(step) && !Busy(cfg, s, id)
    ensures !Busy(cfg, Next(cfg, s, step), id)
  {
    if Outside(step) {
      OutsideKeepsShared(cfg, s, step);
    }
  }

  lemma OthersKeepStranded(cfg: Config, s: State, step: Step, id: string)
    requires Safe(cfg, s) && Stranded(cfg, s, id) && Enabled(cfg, s, step) && !ChangesStates(step)
    ensures Stranded(cfg, Next(cfg, s, step), id)
  {
    OtherStepsKeepShared(cfg, s, step);
    OthersKeepIdle(cfg, s, step, id);
  }

  lemma StepKeepsStranded(cfg: Config, s: State, step: Step, id: string)
    requires UniqueIds(cfg.containers) && Safe(cfg, s) && Stranded(cfg, s, id) && Enabled(cfg, s, step)
    ensures Stranded(cfg, Next(cfg, s, step), id)
  {
    if !ChangesStates(step) {
      OthersKeepStranded(cfg, s, step, id);
    } else if step.Registers? {
      RegistersKeepsStranded(cfg, s, step.t, step.pid, id);
    } else if step.Receives? {
      ReceivesKeepsStranded(cfg, s, id);
    } else if step.RunBegins? {
      SafeForAccounts(cfg, s);
    }
  }

  lemma LastStep(cfg: Config, steps: seq<Step>, more: seq<Step>, t: State) returns (before: State)
    requires more != [] && After(cfg, steps + more) == Some(t)
    ensures After(cfg, steps + more[..|more| - 1]) == Some(before)
    ensures Enabled(cfg, before, more[|more| - 1]) && t == Next(cfg, before, more[|more| - 1])
  {
    var fewer, last := more[..|more| - 1], more[|more| - 1];
    assert steps + more == (steps + fewer) + [last];
    AfterOneMore(cfg, steps + fewer, last);
    before := After(cfg, steps + fewer).value;
  }

  lemma {:induction false} StrandedStays(cfg: Config, steps: seq<Step>, more: seq<Step>, s: State, t: State, id: string)
    requires UniqueIds(cfg.containers) && After(cfg, steps) == Some(s) && Stranded(cfg, s, id)
    requires After(cfg, steps + more) == Some(t)
    ensures Stranded(cfg, t, id)
  {
    if more == [] {
      assert steps + more == steps;
    } else {
      var fewer, last := more[..|more| - 1], more[|more| - 1];
      var before := LastStep(cfg, steps, more, t);
      StrandedStays(cfg, steps, fewer, s, before, id);
      EveryRunIsSafe(cfg, steps + fewer);
      StepKeepsStranded(cfg, before, last, id);
    }
  }

  predicate ReturnsNil(cfg: Config, steps: seq<Step>) {
    After(cfg, steps).Some? && After(cfg, steps).value.run == Returned(RunOk)
  }

  predicate AllHaveBundles(cfg: Config) {
    forall i | 0 <= i < |cfg.containers| :: cfg.containers[i].id in cfg.bundles
  }

  lemma ReturnNeedsBundles(cfg: Config, steps: seq<Step>)
    requires UniqueIds(cfg.containers) && ReturnsNil(cfg, steps)
    ensures AllHaveBundles(cfg)
  {
    var t := After(cfg, steps).value;
    EveryRunIsSafe(cfg, steps);
    EveryRunIsBundled(cfg, steps, t);
    forall i | 0 <= i < |cfg.containers| ensures cfg.containers[i].id in cfg.bundles {
      assert IsDone(t, cfg.containers[i].id);
    }
  }

  lemma StrandedNeverReturns(cfg: Config, steps: seq<Step>, more: seq<Step>, s: State, id: string)
    requires UniqueIds(cfg.containers) && After(cfg, steps) == Some(s) && Stranded(cfg, s, id)
    ensures !ReturnsNil(cfg, steps + more)
  {
    if ReturnsNil(cfg, steps + more) {
      var t := After(cfg, steps + more).value;
      StrandedStays(cfg, steps, more, s, t, id);
      EveryRunIsSafe(cfg, steps + more);
      DeclaredIsDone(cfg, t, id);
    }
  }
}
