/** Restart accounting: starts, handled exits and lost processes balance, and each policy bounds starts. */
module LifecycleAccounts {
  import opened Common
  import opened PodSpec
  import opened Lifecycle
  import opened LifecycleSafety

  function Count(ids: seq<string>, id: string): nat {
    if ids == [] then 0
    else Count(ids[..|ids| - 1], id) + (if ids[|ids| - 1] == id then 1 else 0)
  }

  /** The exits of a container that the consumer has handled, all or the failing ones. */
  function Exits(handled: seq<Handled>, id: string): nat {
    if handled == [] then 0
    else Exits(handled[..|handled| - 1], id) + (if handled[|handled| - 1].id == id then 1 else 0)
  }

  function Failures(handled: seq<Handled>, id: string): nat {
    if handled == [] then 0
    else
      var last := handled[|handled| - 1];
      Failures(handled[..|handled| - 1], id) + (if last.id == id && last.failing then 1 else 0)
  }

  function StartsOf(s: State, id: string): nat {
    if id in s.shared.states then s.shared.states[id].starts else 0
  }

  predicate Names(index: map<int, string>, id: string) {
    exists p | p in index :: index[p] == id
  }

  predicate IsRegistered(s: State, id: string) {
    Names(s.shared.pidIndex, id)
  }

  ghost predicate Injective(index: map<int, string>) {
    forall p, q | p in index && q in index && index[p] == index[q] :: p == q
  }

  ghost predicate Balanced(s: State, id: string) {
    && StartsOf(s, id) == Count(s.started, id)
    && StartsOf(s, id) == Exits(s.handled, id) + (if IsRegistered(s, id) then 1 else 0) + Count(s.lost, id)
  }

  lemma CountOneMore(ids: seq<string>, more: string, id: string)
    ensures Count(ids + [more], id) == Count(ids, id) + (if more == id then 1 else 0)
  {
    assert (ids + [more])[..|ids|] == ids;
  }

  lemma ExitsOneMore(handled: seq<Handled>, h: Handled, id: string)
    ensures Exits(handled + [h], id) == Exits(handled, id) + (if h.id == id then 1 else 0)
    ensures Failures(handled + [h], id) == Failures(handled, id) + (if h.id == id && h.failing then 1 else 0)
  {
    assert (handled + [h])[..|handled|] == handled;
  }

  lemma NamesAfterAdding(index: map<int, string>, pid: int, id: string, other: string)
    requires Injective(index) && !Names(index, id)
    ensures Names(index[pid := id], other) <==>
            other == id || (Names(index, other) && !(pid in index && index[pid] == other))
  {
    var after := index[pid := id];
    assert pid in after && after[pid] == id;
    if Names(index, other) {
      var p :| p in index && index[p] == other;
      assert p != pid ==> p in after && after[p] == other;
    }
  }

  lemma NamesAfterRemoving(index: map<int, string>, pid: int, other: string)
    requires Injective(index) && pid in index
    ensures Names(index - {pid}, other) <==> Names(index, other) && other != index[pid]
  {
    var after := index - {pid};
    if Names(index, other) {
      var p :| p in index && index[p] == other;
      assert p != pid ==> p in after && after[p] == other;
    }
  }

  lemma LostOneMore(s: State, own: string, pid: int, id: string)
    ensures Count(s.lost + LostBy(s, own, pid), id) == Count(s.lost, id) +
            if pid <= 0 then (if own == id then 1 else 0)
            else if pid in s.shared.pidIndex && s.shared.pidIndex[pid] == id then 1 else 0
  {
    var lost := LostBy(s, own, pid);
    if lost != [] {
      CountOneMore(s.lost, lost[0], id);
    } else {
      assert s.lost + lost == s.lost;
    }
  }

  lemma RegistrationBalances(s: State, next: State, own: string, pid: int, id: string)
    requires own in s.shared.states && Balanced(s, id)
    requires Injective(s.shared.pidIndex) && !Names(s.shared.pidIndex, own)
    requires next.shared == s.shared.Registered(own, pid) && next.handled == s.handled
    requires next.started == s.started + [own] && next.lost == s.lost + LostBy(s, own, pid)
    ensures Balanced(next, id)
  {
    var index := s.shared.pidIndex;
    assert StartsOf(next, id) == StartsOf(s, id) + if own == id then 1 else 0;
    assert StartsOf(next, id) == Count(next.started, id) by {
      CountOneMore(s.started, own, id);
    }
    LostOneMore(s, own, pid, id);
    assert !IsRegistered(s, own);
    if pid > 0 {
      assert next.shared.pidIndex == index[pid := own];
      NamesAfterAdding(index, pid, own, id);
      assert pid in index ==> Names(index, index[pid]);
    } else {
      assert next.shared.pidIndex == index;
    }
  }

  lemma RegistersBalances(cfg: Config, s: State, t: Thread, pid: int, id: string)
    requires CanRegister(cfg, s, t) && Balanced(s, id)
    requires Injective(s.shared.pidIndex) && !Names(s.shared.pidIndex, StartId(cfg, s, t))
    ensures Balanced(RegisteredBy(cfg, s, t, pid), id)
  {
    RegistrationBalances(s, RegisteredBy(cfg, s, t, pid), StartId(cfg, s, t), pid, id);
  }

  lemma ReceivesBalances(cfg: Config, s: State, id: string)
    requires CanReceive(s) && Balanced(s, id) && Injective(s.shared.pidIndex)
    ensures Balanced(Received(s), id)
  {
    var ev, index := s.channel[0], s.shared.pidIndex;
    if ev.pid in index {
      ExitsOneMore(s.handled, Handled(index[ev.pid], ev.serial, ev.status.Failing()), id);
      NamesAfterRemoving(index, ev.pid, id);
      assert Names(index, index[ev.pid]);
    }
  }

  /** Balance depends on these parts of the state only. */
  lemma SameBalance(s: State, next: State, id: string)
    requires Balanced(s, id)
    requires next.started == s.started && next.handled == s.handled && next.lost == s.lost
    requires next.shared.pidIndex == s.shared.pidIndex && StartsOf(next, id) == StartsOf(s, id)
    ensures Balanced(next, id)
  {}

  predicate ChangesStates(step: Step) {
    step.RunBegins? || step.StopSweeps? || step.ClosesDone? || step.Registers? || step.Receives?
  }

  ghost predicate SameShared(s: State, next: State) {
    && next.shared == s.shared && next.started == s.started && next.handled == s.handled
    && next.lost == s.lost && next.tracked == s.tracked
  }

  lemma OutsideKeepsShared(cfg: Config, s: State, step: Step)
    requires Enabled(cfg, s, step) && Outside(step)
    ensures SameShared(s, Next(cfg, s, step))
    ensures Next(cfg, s, step).run == s.run && Next(cfg, s, step).consumer == s.consumer
  {}

  lemma OtherStepsKeepShared(cfg: Config, s: State, step: Step)
    requires Enabled(cfg, s, step) && !ChangesStates(step)
    ensures SameShared(s, Next(cfg, s, step))
  {
    if Outside(step) {
      OutsideKeepsShared(cfg, s, step);
    }
  }

  /** A closed done stays closed. */
  lemma DoneIsFinal(cfg: Config, s: State, step: Step, id: string)
    requires Safe(cfg, s) && Enabled(cfg, s, step) && IsDone(s, id)
    ensures IsDone(Next(cfg, s, step), id)
  {
    if !ChangesStates(step) {
      OtherStepsKeepShared(cfg, s, step);
    }
    assert s.run.Looping? ==> !IsDone(s, id);
    assert s.consumer.Closing? ==> InConsumer(s, s.consumer.id);
  }

  lemma QuietStepBalances(cfg: Config, s: State, step: Step, id: string)
    requires Enabled(cfg, s, step) && Balanced(s, id) && !step.Registers? && !step.Receives?
    requires step.RunBegins? ==> cfg.containers[s.run.i].id !in s.shared.states
    ensures Balanced(Next(cfg, s, step), id)
  {
    var next := Next(cfg, s, step);
    match step {
      case RunBegins => SameBalance(s, next, id);
      case StopSweeps => SameBalance(s, next, id);
      case ClosesDone => SameBalance(s, next, id);
      case _ =>
        OtherStepsKeepShared(cfg, s, step);
        SameBalance(s, next, id);
    }
  }

  /** What the safety invariant gives the accounts. */
  lemma SafeForAccounts(cfg: Config, s: State)
    requires Safe(cfg, s)
    ensures Injective(s.shared.pidIndex)
    ensures forall t: Thread | AtStart(s, t) :: !Names(s.shared.pidIndex, StartId(cfg, s, t))
    ensures s.run.Looping? && s.run.i < |cfg.containers| ==> cfg.containers[s.run.i].id !in s.shared.states
  {
    forall t: Thread | AtStart(s, t) ensures !Names(s.shared.pidIndex, StartId(cfg, s, t)) {
      assert Busy(cfg, s, StartId(cfg, s, t));
    }
  }

  lemma StepBalances(cfg: Config, s: State, step: Step, id: string)
    requires Safe(cfg, s) && Enabled(cfg, s, step) && Balanced(s, id)
    ensures Balanced(Next(cfg, s, step), id)
  {
    SafeForAccounts(cfg, s);
    match step {
      case Registers(t, pid) => RegistersBalances(cfg, s, t, pid, id);
      case Receives => ReceivesBalances(cfg, s, id);
      case _ => QuietStepBalances(cfg, s, step, id);
    }
  }

  /** Over every run: each completed start is accounted for by a handled exit, by a current entry in
      the pid index, or by a registration that was lost: no pid, or an entry another pid overwrote. */
  lemma {:induction false} StartsBalance(cfg: Config, steps: seq<Step>, s: State, id: string)
    requires UniqueIds(cfg.containers) && After(cfg, steps) == Some(s)
    ensures Balanced(s, id)
  {
    if steps != [] {
      var before := After(cfg, steps[..|steps| - 1]).value;
      StartsBalance(cfg, steps[..|steps| - 1], before, id);
      EveryRunIsSafe(cfg, steps[..|steps| - 1]);
      StepBalances(cfg, before, steps[|steps| - 1], id);
    }
  }

  /** So starts equal handled exits plus the current entry exactly when nothing was lost. */
  lemma StartsEqualExitsIffNoneLost(cfg: Config, steps: seq<Step>, s: State, id: string)
    requires UniqueIds(cfg.containers) && After(cfg, steps) == Some(s)
    ensures StartsOf(s, id) == Exits(s.handled, id) + (if IsRegistered(s, id) then 1 else 0) <==> id !in s.lost
  {
    StartsBalance(cfg, steps, s, id);
    CountIsZero(s.lost, id);
  }

  lemma {:induction false} CountIsZero(ids: seq<string>, id: string)
    ensures Count(ids, id) == 0 <==> id !in ids
  {
    if ids != [] {
      CountIsZero(ids[..|ids| - 1], id);
      assert ids == ids[..|ids| - 1] + [ids[|ids| - 1]];
    }
  }

  /** How far the policy lets the starts of a container run ahead of its failing exits. A start under
      way counts as one already. */
  ghost predicate PolicyBound(cfg: Config, s: State, id: string) {
    id in s.shared.states ==>
      var st := s.shared.states[id];
      var failures := Failures(s.handled, id);
      && (s.run.RunStarting? && s.run.i < |cfg.containers| && cfg.containers[s.run.i].id == id ==> st.starts == 0)
      && (st.restart != RESTART_ALWAYS && st.restart != RESTART_ON_FAILURE ==>
            st.starts <= 1 && !(s.consumer.Restarting? && s.consumer.id == id))
      && (st.restart == RESTART_ON_FAILURE ==>
            && st.starts <= 1 + failures
            && (s.consumer.Restarting? && s.consumer.id == id ==> st.starts <= failures)
            && (s.consumer.Deciding? && s.consumer.id == id && s.consumer.ev.status.Failing() ==>
                  st.starts <= failures))
  }

  lemma PolicyBoundDependsOn(cfg: Config, s: State, next: State, id: string)
    requires PolicyBound(cfg, s, id)
    requires next.shared == s.shared && next.handled == s.handled && next.run == s.run && next.consumer == s.consumer
    ensures PolicyBound(cfg, next, id)
  {}

  /** The consumer runs only once the start loop is over. */
  predicate OneAtATime(s: State) {
    s.run.Looping? || s.run.RunStarting? ==> s.consumer.NotRunning?
  }

  lemma RegistersKeepsPolicyBound(cfg: Config, s: State, t: Thread, pid: int, id: string)
    requires OneAtATime(s) && CanRegister(cfg, s, t) && PolicyBound(cfg, s, id)
    ensures PolicyBound(cfg, RegisteredBy(cfg, s, t, pid), id)
  {
    var next := RegisteredBy(cfg, s, t, pid);
    var own := StartId(cfg, s, t);
    assert next.handled == s.handled;
    if t.Runner? {
      assert next.consumer == s.consumer;
    } else {
      assert next.run == s.run;
    }
  }

  lemma ReceivesKeepsPolicyBound(cfg: Config, s: State, id: string)
    requires CanReceive(s) && PolicyBound(cfg, s, id)
    ensures PolicyBound(cfg, Received(s), id)
  {
    var ev := s.channel[0];
    if ev.pid in s.shared.pidIndex {
      ExitsOneMore(s.handled, Handled(s.shared.pidIndex[ev.pid], ev.serial, ev.status.Failing()), id);
    }
  }

  lemma StartStepsKeepPolicyBound(cfg: Config, s: State, step: Step, id: string)
    requires Enabled(cfg, s, step) && PolicyBound(cfg, s, id)
    requires step.BundleMissing? || step.CreateFails? || step.StartFails? || step.CreateSucceeds? || step.StartSucceeds?
    ensures PolicyBound(cfg, Next(cfg, s, step), id)
  {
    OtherStepsKeepShared(cfg, s, step);
    var next := Next(cfg, s, step);
    assert next.run.RunStarting? ==> s.run.RunStarting? && next.run.i == s.run.i;
    assert next.consumer.Restarting? ==> s.consumer.Restarting? && next.consumer.id == s.consumer.id;
    assert next.consumer.Deciding? ==> next.consumer == s.consumer;
  }

  lemma ThreadStepsKeepPolicyBound(cfg: Config, s: State, step: Step, id: string)
    requires Enabled(cfg, s, step) && PolicyBound(cfg, s, id)
    requires step.ConsumerSpawns? || step.RunSeesDone? || step.RunSeesCancel? || step.ChannelEnds? || step.Decides?
    ensures PolicyBound(cfg, Next(cfg, s, step), id)
  {
    OtherStepsKeepShared(cfg, s, step);
  }

  lemma StateStepsKeepPolicyBound(cfg: Config, s: State, step: Step, id: string)
    requires OneAtATime(s) && Enabled(cfg, s, step) && PolicyBound(cfg, s, id)
    requires step.RunBegins? || step.ClosesDone? || step.StopSweeps?
    ensures PolicyBound(cfg, Next(cfg, s, step), id)
  {}

  lemma StepKeepsPolicyBound(cfg: Config, s: State, step: Step, id: string)
    requires OneAtATime(s) && Enabled(cfg, s, step) && PolicyBound(cfg, s, id)
    ensures PolicyBound(cfg, Next(cfg, s, step), id)
  {
    match step {
      case Registers(t, pid) => RegistersKeepsPolicyBound(cfg, s, t, pid, id);
      case Receives => ReceivesKeepsPolicyBound(cfg, s, id);
      case RunBegins => StateStepsKeepPolicyBound(cfg, s, step, id);
      case ClosesDone => StateStepsKeepPolicyBound(cfg, s, step, id);
      case StopSweeps => StateStepsKeepPolicyBound(cfg, s, step, id);
      case ConsumerSpawns => ThreadStepsKeepPolicyBound(cfg, s, step, id);
      case RunSeesDone => ThreadStepsKeepPolicyBound(cfg, s, step, id);
      case RunSeesCancel => ThreadStepsKeepPolicyBound(cfg, s, step, id);
      case ChannelEnds => ThreadStepsKeepPolicyBound(cfg, s, step, id);
      case Decides => ThreadStepsKeepPolicyBound(cfg, s, step, id);
      case _ =>
        if Outside(step) {
          OutsideKeepsShared(cfg, s, step);
          PolicyBoundDependsOn(cfg, s, Next(cfg, s, step), id);
        } else {
          StartStepsKeepPolicyBound(cfg, s, step, id);
        }
    }
  }

  lemma {:induction false} EveryRunKeepsPolicyBound(cfg: Config, steps: seq<Step>, s: State, id: string)
    requires UniqueIds(cfg.containers) && After(cfg, steps) == Some(s)
    ensures PolicyBound(cfg, s, id)
  {
    if steps != [] {
      var before := After(cfg, steps[..|steps| - 1]).value;
      EveryRunKeepsPolicyBound(cfg, steps[..|steps| - 1], before, id);
      EveryRunIsSafe(cfg, steps[..|steps| - 1]);
      StepKeepsPolicyBound(cfg, before, steps[|steps| - 1], id);
    }
  }

  /** Over every run: a container that is never to be restarted starts at most once, and one that is
      restarted on failure starts at most once more than it has failing exits. */
  lemma PolicyBoundsStarts(cfg: Config, steps: seq<Step>, s: State, c: Container)
    requires UniqueIds(cfg.containers) && After(cfg, steps) == Some(s) && c in cfg.containers
    ensures c.restart != "always" && c.restart != "on-failure" ==> StartsOf(s, c.id) <= 1
    ensures c.restart == "on-failure" ==> StartsOf(s, c.id) <= 1 + Failures(s.handled, c.id)
  {
    EveryRunIsSafe(cfg, steps);
    EveryRunKeepsPolicyBound(cfg, steps, s, c.id);
    var j :| 0 <= j < |cfg.containers| && cfg.containers[j] == c;
    assert cfg.containers[j].id in s.shared.states ==> s.shared.states[c.id].restart == c.restart;
  }
}
