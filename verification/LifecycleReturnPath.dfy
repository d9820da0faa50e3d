/** From every state in which no container is stranded, a way for Run to return nil. */
module LifecycleReturnPath {
  import opened Common
  import opened PodSpec
  import opened Lifecycle
  import opened LifecycleSafety
  import opened LifecycleAccounts
  import LifecycleExits
  import opened LifecycleEarlyStop
  import opened LifecycleReturn

  // What every reachable state offers

  ghost predicate Sane(cfg: Config, s: State) {
    && (s.run.Waiting? ==> s.run.i < |cfg.containers|)
    && (s.consumer.Ended? ==> s.closed)
    && (forall p | p in s.shared.pidIndex :: p > 0)
    && SaneStart(s, Runner) && SaneStart(s, Consumer)
  }

  predicate SaneStart(s: State, t: Thread) {
    AtStart(s, t) && !StartingAt(s, t).value.Creating? ==> StartingAt(s, t).value.serial < |s.procs|
  }

  lemma SaneStartStays(cfg: Config, s: State, step: Step, t: Thread)
    requires SaneStart(s, t) && Enabled(cfg, s, step)
    ensures SaneStart(Next(cfg, s, step), t)
  {
    if Outside(step) {
      OutsideKeepsShared(cfg, s, step);
      assert |Next(cfg, s, step).procs| >= |s.procs|;
    }
  }

  lemma StepKeepsSane(cfg: Config, s: State, step: Step)
    requires Sane(cfg, s) && Enabled(cfg, s, step)
    ensures Sane(cfg, Next(cfg, s, step))
  {
    SaneStartStays(cfg, s, step, Runner);
    SaneStartStays(cfg, s, step, Consumer);
    if Outside(step) {
      OutsideKeepsShared(cfg, s, step);
    }
  }

  lemma {:induction false} EveryRunIsSane(cfg: Config, steps: seq<Step>, s: State)
    requires After(cfg, steps) == Some(s)
    ensures Sane(cfg, s)
  {
    if steps != [] {
      var before := After(cfg, steps[..|steps| - 1]).value;
      EveryRunIsSane(cfg, steps[..|steps| - 1], before);
      StepKeepsSane(cfg, before, steps[|steps| - 1]);
    }
  }

  lemma {:induction false} BoundIndex(index: map<int, string>) returns (b: int)
    ensures b > 0 && forall p | p in index :: p < b
    decreases |index|
  {
    if index == map[] {
      b := 1;
    } else {
      var p := LifecycleExits.SomeKey(index);
      b := BoundIndex(index - {p});
      assert forall q | q in index :: q == p || q in index - {p};
      b := if p < b then b else p + 1;
    }
  }

  lemma {:induction false} BoundProcs(procs: seq<Process>, low: int) returns (b: int)
    ensures b >= low && forall k | 0 <= k < |procs| :: procs[k].pid < b
  {
    if procs == [] {
      b := low;
    } else {
      var n := |procs| - 1;
      b := BoundProcs(procs[..n], low);
      b := if procs[n].pid < b then b else procs[n].pid + 1;
    }
  }

  /** A pid that is neither in use nor registered. */
  lemma FreshPid(s: State) returns (pid: int)
    ensures PidFree(s, pid) && pid !in s.shared.pidIndex
  {
    var low := BoundIndex(s.shared.pidIndex);
    pid := BoundProcs(s.procs, low);
  }

  // Steps that strand nobody

  ghost predicate NoneStranded(cfg: Config, s: State) {
    forall id :: !Stranded(cfg, s, id)
  }

  /** The reaper and Run go on, and all can still end well. */
  ghost predicate Hopeful(cfg: Config, s: State) {
    Safe(cfg, s) && Sane(cfg, s) && NoneStranded(cfg, s) && !s.closed && !s.run.Returned?
  }

  /** Run does not give up on a start, and registrations overwrite nothing. */
  predicate Gentle(s: State, step: Step) {
    match step
    case BundleMissing(t) => t.Consumer?
    case CreateFails(t) => t.Consumer?
    case StartFails(t) => t.Consumer?
    case Registers(_, pid) => pid > 0 && pid !in s.shared.pidIndex
    case RunSeesCancel => false
    case ReaperCloses => false
    case _ => true
  }

  lemma RegistersStrandsNobody(cfg: Config, s: State, t: Thread, pid: int)
    requires Safe(cfg, s) && NoneStranded(cfg, s) && CanRegister(cfg, s, t) && pid > 0 && pid !in s.shared.pidIndex
    ensures NoneStranded(cfg, RegisteredBy(cfg, s, t, pid))
  {
    var next, own := RegisteredBy(cfg, s, t, pid), StartId(cfg, s, t);
    SafeForAccounts(cfg, s);
    assert next.shared.pidIndex == s.shared.pidIndex[pid := own];
    forall id ensures !Stranded(cfg, next, id) {
      assert !Stranded(cfg, s, id);
      NamesAfterAdding(s.shared.pidIndex, pid, own, id);
    }
  }

  lemma ReceivesStrandsNobody(cfg: Config, s: State)
    requires Safe(cfg, s) && NoneStranded(cfg, s) && CanReceive(s)
    ensures NoneStranded(cfg, Received(s))
  {
    var next, pid := Received(s), s.channel[0].pid;
    SafeForAccounts(cfg, s);
    forall id ensures !Stranded(cfg, next, id) {
      assert !Stranded(cfg, s, id);
      if pid in s.shared.pidIndex {
        NamesAfterRemoving(s.shared.pidIndex, pid, id);
      }
    }
  }

  lemma OthersStrandNobody(cfg: Config, s: State, step: Step)
    requires Safe(cfg, s) && NoneStranded(cfg, s) && Enabled(cfg, s, step) && Gentle(s, step)
    requires !ChangesStates(step)
    ensures NoneStranded(cfg, Next(cfg, s, step))
  {
    var next := Next(cfg, s, step);
    OtherStepsKeepShared(cfg, s, step);
    forall id ensures !Stranded(cfg, next, id) {
      assert !Stranded(cfg, s, id);
      assert Busy(cfg, s, id) ==> Busy(cfg, next, id);
    }
  }

  lemma RecordsStrandNobody(cfg: Config, s: State, step: Step)
    requires Safe(cfg, s) && NoneStranded(cfg, s) && Enabled(cfg, s, step)
    requires step.RunBegins? || step.ClosesDone? || step.StopSweeps?
    ensures NoneStranded(cfg, Next(cfg, s, step))
  {
    var next := Next(cfg, s, step);
    assert next.shared.pidIndex == s.shared.pidIndex;
    forall id ensures !Stranded(cfg, next, id) {
      assert !Stranded(cfg, s, id);
    }
  }

  lemma StepStrandsNobody(cfg: Config, s: State, step: Step)
    requires Safe(cfg, s) && NoneStranded(cfg, s) && Enabled(cfg, s, step) && Gentle(s, step)
    ensures NoneStranded(cfg, Next(cfg, s, step))
  {
    if !ChangesStates(step) {
      OthersStrandNobody(cfg, s, step);
    } else if step.Registers? {
      RegistersStrandsNobody(cfg, s, step.t, step.pid);
    } else if step.Receives? {
      ReceivesStrandsNobody(cfg, s);
    } else {
      RecordsStrandNobody(cfg, s, step);
    }
  }

  lemma GentleKeepsRunning(cfg: Config, s: State, step: Step)
    requires Enabled(cfg, s, step) && Gentle(s, step) && !s.closed
    ensures !Next(cfg, s, step).closed
    ensures Next(cfg, s, step).run.Returned? ==> s.run.Returned? || Next(cfg, s, step).run == Returned(RunOk)
  {
  }

  /** One gentle step further. */
  lemma Go(cfg: Config, steps: seq<Step>, s: State, step: Step) returns (more: seq<Step>, next: State)
    requires UniqueIds(cfg.containers) && After(cfg, steps) == Some(s) && Hopeful(cfg, s)
    requires Enabled(cfg, s, step) && Gentle(s, step)
    ensures After(cfg, more) == Some(next) && steps <= more && next == Next(cfg, s, step)
    ensures Hopeful(cfg, next) || next.run == Returned(RunOk)
  {
    AfterOneMore(cfg, steps, step);
    more, next := steps + [step], Next(cfg, s, step);
    StepKeepsSafe(cfg, s, step);
    StepKeepsSane(cfg, s, step);
    StepStrandsNobody(cfg, s, step);
    GentleKeepsRunning(cfg, s, step);
  }

  // The way there

  /** Nobody is stranded, and what is still to start has a bundle. */
  ghost predicate OnTheWay(cfg: Config, steps: seq<Step>, s: State) {
    UniqueIds(cfg.containers) && AllHaveBundles(cfg) && After(cfg, steps) == Some(s) && Hopeful(cfg, s)
  }

  lemma RunnerRegisters(cfg: Config, steps: seq<Step>, s: State) returns (more: seq<Step>, next: State)
    requires OnTheWay(cfg, steps, s) && s.run.RunStarting? && s.run.pc.Registering?
    ensures OnTheWay(cfg, more, next) && steps <= more && next.run == Looping(s.run.i + 1)
  {
    var pid := FreshPid(s);
    assert Busy(cfg, s, cfg.containers[s.run.i].id);
    more, next := Go(cfg, steps, s, Registers(Runner, pid));
  }

  lemma RunnerGoesOn(cfg: Config, steps: seq<Step>, s: State) returns (more: seq<Step>, next: State)
    requires OnTheWay(cfg, steps, s) && s.run.RunStarting? && s.run.pc.Starting?
    ensures OnTheWay(cfg, more, next) && steps <= more && next.run == Looping(s.run.i + 1)
  {
    assert SaneStart(s, Runner);
    more, next := Go(cfg, steps, s, StartSucceeds(Runner));
    more, next := RunnerRegisters(cfg, more, next);
  }

  lemma RunnerBegins(cfg: Config, steps: seq<Step>, s: State) returns (more: seq<Step>, next: State)
    requires OnTheWay(cfg, steps, s) && s.run.RunStarting? && s.run.pc.Creating?
    ensures OnTheWay(cfg, more, next) && steps <= more && next.run == Looping(s.run.i + 1)
  {
    var pid := FreshPid(s);
    more, next := Go(cfg, steps, s, CreateSucceeds(Runner, pid));
    more, next := RunnerGoesOn(cfg, more, next);
  }

  lemma RunnerFinishesStart(cfg: Config, steps: seq<Step>, s: State) returns (more: seq<Step>, next: State)
    requires OnTheWay(cfg, steps, s) && s.run.RunStarting?
    ensures OnTheWay(cfg, more, next) && steps <= more && next.run == Looping(s.run.i + 1)
  {
    match s.run.pc
    case Creating => more, next := RunnerBegins(cfg, steps, s);
    case Starting(_) => more, next := RunnerGoesOn(cfg, steps, s);
    case Registering(_) => more, next := RunnerRegisters(cfg, steps, s);
  }

  /** Run starts what is left to start. */
  lemma {:induction false} RunnerFinishes(cfg: Config, steps: seq<Step>, s: State)
      returns (more: seq<Step>, next: State)
    requires OnTheWay(cfg, steps, s) && s.run.Looping?
    ensures OnTheWay(cfg, more, next) && steps <= more && next.run == Looping(|cfg.containers|)
    decreases |cfg.containers| - s.run.i
  {
    if s.run.i == |cfg.containers| {
      more, next := steps, s;
    } else {
      more, next := Go(cfg, steps, s, RunBegins);
      more, next := RunnerFinishesStart(cfg, more, next);
      more, next := RunnerFinishes(cfg, more, next);
    }
  }

  /** The consumer lets a restart fail, and closes the container's done. */
  lemma ConsumerFinishes(cfg: Config, steps: seq<Step>, s: State) returns (more: seq<Step>, next: State)
    requires OnTheWay(cfg, steps, s) && s.run.Waiting? && !s.consumer.NotRunning? && !s.consumer.Ended?
    ensures OnTheWay(cfg, more, next) && steps <= more && next.run == s.run && next.consumer == Receiving
    ensures next.channel == s.channel && next.hand == s.hand
    ensures !AtStart(s, Consumer) ==> next.shared.pidIndex == s.shared.pidIndex
  {
    match s.consumer
    case Deciding(id, _) =>
      assert InConsumer(s, id);
      more, next := Go(cfg, steps, s, Decides);
      more, next := ConsumerFinishesQuietly(cfg, more, next);
    case Restarting(_, pc) =>
      if pc.Registering? {
        assert InConsumer(s, s.consumer.id);
        var pid := FreshPid(s);
        more, next := Go(cfg, steps, s, Registers(Consumer, pid));
      } else {
        more, next := ConsumerFinishesQuietly(cfg, steps, s);
      }
    case Closing(_) => more, next := ConsumerFinishesQuietly(cfg, steps, s);
    case Receiving => more, next := steps, s;
  }

  /** The same where it has nothing to register yet. */
  lemma ConsumerFinishesQuietly(cfg: Config, steps: seq<Step>, s: State) returns (more: seq<Step>, next: State)
    requires OnTheWay(cfg, steps, s) && s.run.Waiting?
    requires s.consumer.Closing? || (s.consumer.Restarting? && !s.consumer.pc.Registering?)
    ensures OnTheWay(cfg, more, next) && steps <= more && next.run == s.run && next.consumer == Receiving
    ensures next.channel == s.channel && next.hand == s.hand && next.shared.pidIndex == s.shared.pidIndex
  {
    more, next := steps, s;
    if s.consumer.Restarting? {
      if s.consumer.pc.Creating? {
        ConsumerHasBundle(cfg, s);
        more, next := Go(cfg, steps, s, CreateFails(Consumer));
      } else {
        more, next := Go(cfg, steps, s, StartFails(Consumer));
      }
    }
    assert InConsumer(next, next.consumer.id);
    more, next := Go(cfg, more, next, ClosesDone);
  }

  lemma ConsumerHasBundle(cfg: Config, s: State)
    requires AllHaveBundles(cfg) && Safe(cfg, s) && s.consumer.Restarting?
    ensures s.consumer.id in cfg.bundles
  {
    assert InConsumer(s, s.consumer.id);
    assert Declared(cfg.containers, s.consumer.id);
  }

  /** Run waits, the consumer listens, and the reaper has its hands free. */
  ghost predicate Listening(cfg: Config, steps: seq<Step>, s: State) {
    OnTheWay(cfg, steps, s) && s.run.Waiting? && s.consumer == Receiving && s.hand == None
  }

  lemma OnePidOut(s: State, next: State)
    requires CanReceive(s) && next == Received(s)
    ensures next.shared.pidIndex == s.shared.pidIndex - {s.channel[0].pid} && next.channel == s.channel[1..]
    ensures next.hand == s.hand && next.run == s.run && (next.consumer == Receiving || next.consumer.Deciding?)
  {
    if s.channel[0].pid !in s.shared.pidIndex {
      assert s.shared.pidIndex - {s.channel[0].pid} == s.shared.pidIndex;
    }
  }

  lemma ConsumerHears(cfg: Config, steps: seq<Step>, s: State) returns (more: seq<Step>, next: State)
    requires Listening(cfg, steps, s) && s.channel != []
    ensures OnTheWay(cfg, more, next) && steps <= more && next == Received(s)
  {
    more, next := Go(cfg, steps, s, Receives);
    OnePidOut(s, next);
  }

  lemma ConsumerTakesOne(cfg: Config, steps: seq<Step>, s: State) returns (more: seq<Step>, next: State)
    requires Listening(cfg, steps, s) && s.channel != []
    ensures Listening(cfg, more, next) && steps <= more && next.run == s.run && next.channel == s.channel[1..]
    ensures next.shared.pidIndex == s.shared.pidIndex - {s.channel[0].pid}
  {
    OnePidOut(s, Received(s));
    more, next := ConsumerHears(cfg, steps, s);
    more, next := ConsumerFinishes(cfg, more, next);
  }

  /** The channel is emptied. */
  lemma {:induction false} ConsumerCatchesUp(cfg: Config, steps: seq<Step>, s: State)
      returns (more: seq<Step>, next: State)
    requires Listening(cfg, steps, s)
    ensures Listening(cfg, more, next) && steps <= more && next.run == s.run && next.channel == []
    decreases |s.channel|
  {
    if s.channel == [] {
      more, next := steps, s;
    } else {
      more, next := ConsumerTakesOne(cfg, steps, s);
      more, next := ConsumerCatchesUp(cfg, more, next);
    }
  }

  predicate Uses(s: State, k: nat, pid: int) {
    k < |s.procs| && !s.procs[k].phase.Collected? && s.procs[k].pid == pid
  }

  /** Some process has this pid, and if need be one starts. */
  lemma PidIsUsed(cfg: Config, steps: seq<Step>, s: State, pid: int)
      returns (more: seq<Step>, next: State, k: nat)
    requires Listening(cfg, steps, s) && s.channel == [] && pid > 0
    ensures Listening(cfg, more, next) && steps <= more && next.run == s.run
    ensures next.channel == [] && next.shared == s.shared && Uses(next, k, pid)
  {
    if exists j: nat :: Uses(s, j, pid) {
      more, next := steps, s;
      k :| Uses(s, k, pid);
    } else {
      forall j | 0 <= j < |s.procs| ensures s.procs[j].phase.Collected? || s.procs[j].pid != pid {
        assert !Uses(s, j, pid);
      }
      assert PidFree(s, pid);
      more, next := Go(cfg, steps, s, OtherProcessStarts(pid));
      k := |s.procs|;
    }
  }

  /** Some process with this pid ends, and the reaper collects it. */
  lemma PidEnds(cfg: Config, steps: seq<Step>, s: State, pid: int) returns (more: seq<Step>, next: State)
    requires Listening(cfg, steps, s) && s.channel == [] && pid > 0
    ensures OnTheWay(cfg, more, next) && steps <= more && next.run == s.run && next.consumer == Receiving
    ensures next.channel == [] && next.shared == s.shared && next.hand.Some? && next.hand.value.pid == pid
  {
    var k: nat;
    more, next, k := PidIsUsed(cfg, steps, s, pid);
    if next.procs[k].phase.Alive? {
      more, next := Go(cfg, more, next, ProcessExits(k, FAILED));
    }
    more, next := Go(cfg, more, next, ReaperCollects(k));
  }

  /** A registered pid ends, and the consumer hears of it. */
  lemma OnePidLess(cfg: Config, steps: seq<Step>, s: State, pid: int) returns (more: seq<Step>, next: State)
    requires Listening(cfg, steps, s) && s.channel == [] && pid in s.shared.pidIndex
    ensures Listening(cfg, more, next) && steps <= more && next.run == s.run && next.channel == []
    ensures next.shared.pidIndex == s.shared.pidIndex - {pid}
  {
    more, next := PidEnds(cfg, steps, s, pid);
    more, next := Go(cfg, more, next, ReaperPushes);
    more, next := ConsumerTakesOne(cfg, more, next);
  }

  lemma {:induction false} AllPidsEnd(cfg: Config, steps: seq<Step>, s: State) returns (more: seq<Step>, next: State)
    requires Listening(cfg, steps, s) && s.channel == []
    ensures Listening(cfg, more, next) && steps <= more && next.run == s.run
    ensures next.shared.pidIndex == map[]
    decreases |s.shared.pidIndex|
  {
    if s.shared.pidIndex == map[] {
      more, next := steps, s;
    } else {
      var pid := LifecycleExits.SomeKey(s.shared.pidIndex);
      more, next := OnePidLess(cfg, steps, s, pid);
      more, next := AllPidsEnd(cfg, more, next);
    }
  }

  /** With no pid registered and no thread busy, every container is done. */
  lemma IdleMeansDone(cfg: Config, s: State, i: nat)
    requires Hopeful(cfg, s) && s.run.Waiting? && s.consumer == Receiving && s.shared.pidIndex == map[]
    requires i < |cfg.containers|
    ensures IsDone(s, cfg.containers[i].id)
  {
    var id := cfg.containers[i].id;
    assert id in s.shared.states;
    assert !Stranded(cfg, s, id);
    assert !IsRegistered(s, id) && !Busy(cfg, s, id);
  }

  lemma {:induction false} RunSeesAllDone(cfg: Config, steps: seq<Step>, s: State)
      returns (more: seq<Step>, next: State)
    requires Listening(cfg, steps, s) && s.shared.pidIndex == map[] && s.run.i < |cfg.containers|
    ensures After(cfg, more) == Some(next) && steps <= more && next.run == Returned(RunOk)
    decreases |cfg.containers| - s.run.i
  {
    IdleMeansDone(cfg, s, s.run.i);
    more, next := Go(cfg, steps, s, RunSeesDone);
    if next.run != Returned(RunOk) {
      more, next := RunSeesAllDone(cfg, more, next);
    }
  }

  /** Run gets to where it waits; for an empty pod it is back already. */
  lemma RunWaits(cfg: Config, steps: seq<Step>, s: State) returns (more: seq<Step>, next: State)
    requires OnTheWay(cfg, steps, s)
    ensures After(cfg, more) == Some(next) && steps <= more
    ensures next.run == Returned(RunOk) || (OnTheWay(cfg, more, next) && next.run.Waiting?)
  {
    more, next := steps, s;
    if next.run.RunStarting? {
      more, next := RunnerFinishesStart(cfg, more, next);
    }
    if next.run.Looping? {
      more, next := RunnerFinishes(cfg, more, next);
      more, next := Go(cfg, more, next, ConsumerSpawns);
    }
  }

  lemma ThreadsSettle(cfg: Config, steps: seq<Step>, s: State) returns (more: seq<Step>, next: State)
    requires OnTheWay(cfg, steps, s) && s.run.Waiting?
    ensures Listening(cfg, more, next) && steps <= more
  {
    more, next := ConsumerFinishes(cfg, steps, s);
    if next.hand.Some? {
      more, next := Go(cfg, more, next, ReaperPushes);
    }
  }

  lemma RunCanReturn(cfg: Config, steps: seq<Step>, s: State) returns (more: seq<Step>)
    requires OnTheWay(cfg, steps, s)
    ensures steps <= more && ReturnsNil(cfg, more)
  {
    var next;
    more, next := RunWaits(cfg, steps, s);
    if next.run != Returned(RunOk) {
      more, next := ThreadsSettle(cfg, more, next);
      more, next := ConsumerCatchesUp(cfg, more, next);
      more, next := AllPidsEnd(cfg, more, next);
      more, next := RunSeesAllDone(cfg, more, next);
    }
  }

  /** While Run is under way and the reaper works, Run can still return nil exactly if every container has a
      bundle and none is stranded. */
  lemma RunCanReturnIffNoneStranded(cfg: Config, steps: seq<Step>, s: State)
    requires UniqueIds(cfg.containers) && After(cfg, steps) == Some(s) && !s.run.Returned? && !s.closed
    ensures (exists more :: ReturnsNil(cfg, steps + more)) <==> AllHaveBundles(cfg) && NoneStranded(cfg, s)
  {
    if AllHaveBundles(cfg) && NoneStranded(cfg, s) {
      EveryRunIsSafe(cfg, steps);
      EveryRunIsSane(cfg, steps, s);
      var longer := RunCanReturn(cfg, steps, s);
      assert longer == steps + longer[|steps|..];
    }
    forall more | ReturnsNil(cfg, steps + more) ensures AllHaveBundles(cfg) && NoneStranded(cfg, s) {
      ReturnNeedsBundles(cfg, steps + more);
      forall id ensures !Stranded(cfg, s, id) {
        if Stranded(cfg, s, id) {
          StrandedNeverReturns(cfg, steps, more, s, id);
        }
      }
    }
  }
}
