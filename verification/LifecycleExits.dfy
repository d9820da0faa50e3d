/** No exit is missed but the dropped ones: with the true pid from the runtime, and no pid reused while an
    event about it is on its way or the supervisor still holds it, every container exit is handled once and
    for the right container, unless its event met a full channel. */
module LifecycleExits {
  import opened Common
  import opened PodSpec
  import opened Lifecycle
  import opened LifecycleSafety
  import opened LifecycleAccounts
  import opened LifecycleTracking

  /** The runtime reports true pids, and no pid is given out again that the supervisor still holds: in an
      event under way, in its index, or for a registration to come. */
  predicate Honest(s: State, step: Step) {
    match step
    case Registers(t, pid) =>
      AtStart(s, t) && StartingAt(s, t).value.Registering? && StartingAt(s, t).value.serial < |s.procs|
      && pid == s.procs[StartingAt(s, t).value.serial].pid
    case CreateSucceeds(_, pid) => !PidInFlight(s, pid) && pid !in s.shared.pidIndex && !PidPending(s, pid)
    case OtherProcessStarts(pid) => !PidInFlight(s, pid) && pid !in s.shared.pidIndex && !PidPending(s, pid)
    case _ => true
  }

  predicate HonestRun(cfg: Config, steps: seq<Step>) {
    steps == [] ||
    var before := steps[..|steps| - 1];
    && HonestRun(cfg, before)
    && After(cfg, before).Some?
    && Honest(After(cfg, before).value, steps[|steps| - 1])
  }

  /** With room in the channel as well, a pid need only not be given out again while an event about it is
      under way. */
  predicate Granted(s: State, step: Step) {
    match step
    case Registers(t, pid) =>
      AtStart(s, t) && StartingAt(s, t).value.Registering? && StartingAt(s, t).value.serial < |s.procs|
      && pid == s.procs[StartingAt(s, t).value.serial].pid
    case CreateSucceeds(_, pid) => !PidInFlight(s, pid)
    case OtherProcessStarts(pid) => !PidInFlight(s, pid)
    case ReaperPushes => |s.channel| < CHANNEL_SIZE
    case _ => true
  }

  predicate GrantedRun(cfg: Config, steps: seq<Step>) {
    steps == [] ||
    var before := steps[..|steps| - 1];
    && GrantedRun(cfg, before)
    && After(cfg, before).Some?
    && Granted(After(cfg, before).value, steps[|steps| - 1])
  }

  lemma HonestRunIsTruthful(cfg: Config, steps: seq<Step>)
    requires HonestRun(cfg, steps)
    ensures TruthfulRun(cfg, steps)
  {
    if steps != [] {
      HonestRunIsTruthful(cfg, steps[..|steps| - 1]);
    }
  }

  /** No held process has the pid of a registered one, unless it is that. */
  ghost predicate Alone(s: State) {
    forall p, k | p in s.tracked && 0 <= k < |s.procs| && Held(s, k) && s.procs[k].pid == p :: s.tracked[p] == k
  }

  /** A dropped process of a container keeps its entry, and exits are handled for the right containers. */
  ghost predicate Kept(s: State) {
    && (forall k | 0 <= k < |s.procs| && k in s.dropped && s.procs[k].owner.Some? ::
          IsTracked(s, k) || AtRegistering(s, k))
    && (forall i | 0 <= i < |s.handled| ::
          s.handled[i].serial < |s.procs| && s.procs[s.handled[i].serial].owner == Some(s.handled[i].id))
  }

  /** Steps that hand a new process its pid. */
  predicate GivesPid(step: Step) {
    step.CreateSucceeds? || step.OtherProcessStarts?
  }

  /** Steps that add no process, no registration and no handled exit. */
  predicate NothingNew(s: State, next: State) {
    && |next.procs| == |s.procs| && next.tracked == s.tracked && next.handled == s.handled
    && (forall k | 0 <= k < |s.procs| ::
          && next.procs[k].pid == s.procs[k].pid && next.procs[k].owner == s.procs[k].owner
          && (Held(next, k) ==> Held(s, k)))
  }

  lemma NothingNewKeeps(s: State, next: State)
    requires Alone(s) && Kept(s) && NothingNew(s, next)
    requires forall k | 0 <= k < |s.procs| && k in next.dropped && s.procs[k].owner.Some? ::
               IsTracked(next, k) || AtRegistering(next, k)
    ensures Alone(next) && Kept(next)
  {
  }

  lemma UnrelatedKeeps(cfg: Config, s: State, step: Step)
    requires Tracking(cfg, s) && OneAtATime(s) && Alone(s) && Kept(s) && Enabled(cfg, s, step) && Unrelated(step)
    ensures Alone(Next(cfg, s, step)) && Kept(Next(cfg, s, step))
  {
    var next := Next(cfg, s, step);
    UnrelatedView(cfg, s, step);
    UnrelatedStarts(cfg, s, step, Runner);
    UnrelatedStarts(cfg, s, step, Consumer);
    assert forall k :: InFlight(next, k) == InFlight(s, k);
    assert forall k :: Pending(next, k) ==> Pending(s, k);
    assert forall k :: IsTracked(next, k) == IsTracked(s, k);
    assert forall k :: AtRegistering(next, k) == AtRegistering(s, k);
    NothingNewKeeps(s, next);
  }

  lemma ReaperKeeps(cfg: Config, s: State, step: Step)
    requires Tracking(cfg, s) && Alone(s) && Kept(s) && Enabled(cfg, s, step)
    requires step.ProcessExits? || step.ReaperCollects?
    ensures Alone(Next(cfg, s, step)) && Kept(Next(cfg, s, step))
  {
    var next := Next(cfg, s, step);
    assert forall k :: Pending(next, k) == Pending(s, k) && IsTracked(next, k) == IsTracked(s, k);
    assert forall k :: AtRegistering(next, k) == AtRegistering(s, k);
    if step.ReaperCollects? {
      assert forall k :: InFlight(next, k) == (InFlight(s, k) || k == step.serial);
    } else {
      assert forall k :: InFlight(next, k) == InFlight(s, k);
    }
    NothingNewKeeps(s, next);
  }

  /** A dropped event is that of a process still tracked or about to be, if of a container's at all. */
  lemma PushKeeps(cfg: Config, s: State)
    requires Tracking(cfg, s) && Alone(s) && Kept(s) && s.hand.Some?
    ensures Alone(Pushed(s)) && Kept(Pushed(s))
  {
    var next, ev := Pushed(s), s.hand.value;
    assert EventOk(s, ev) && InFlight(s, ev.serial);
    assert forall k :: Pending(next, k) == Pending(s, k) && IsTracked(next, k) == IsTracked(s, k);
    assert forall k :: AtRegistering(next, k) == AtRegistering(s, k);
    forall k | InFlight(next, k) ensures InFlight(s, k) {
      if |s.channel| < CHANNEL_SIZE && k != ev.serial {
        var i :| 0 <= i < |next.channel| && next.channel[i].serial == k;
        assert s.channel[i].serial == k;
      }
    }
    NothingNewKeeps(s, next);
  }

  lemma MoreProcessesKeep(s: State, next: State, pid: int)
    requires Alone(s) && Kept(s) && pid !in s.tracked
    requires next.procs == s.procs + [Process(pid, Alive, None)]
    requires next.tracked == s.tracked && next.handled == s.handled && next.dropped == s.dropped
    requires forall k | 0 <= k < |s.procs| :: InFlight(next, k) == InFlight(s, k) && Pending(next, k) == Pending(s, k)
    requires forall k | AtRegistering(s, k) :: AtRegistering(next, k)
    ensures Alone(next) && Kept(next)
  {
    assert forall k :: IsTracked(next, k) == IsTracked(s, k);
    forall p, k | p in next.tracked && 0 <= k < |next.procs| && Held(next, k) && next.procs[k].pid == p
      ensures next.tracked[p] == k
    {
      if k < |s.procs| {
        assert Held(s, k);
      }
    }
  }

  lemma CreateKeeps(cfg: Config, s: State, t: Thread, pid: int)
    requires Tracking(cfg, s) && Alone(s) && Kept(s) && StartingAt(s, t) == Some(Creating)
    requires Honest(s, CreateSucceeds(t, pid))
    ensures Alone(Created(s, t, pid)) && Kept(Created(s, t, pid))
  {
    var next := Created(s, t, pid);
    assert forall k :: InFlight(next, k) == InFlight(s, k);
    assert forall k | 0 <= k < |s.procs| :: Pending(next, k) == Pending(s, k);
    assert forall k :: AtRegistering(next, k) == AtRegistering(s, k);
    MoreProcessesKeep(s, next, pid);
  }

  lemma OtherProcessKeeps(cfg: Config, s: State, pid: int)
    requires Tracking(cfg, s) && Alone(s) && Kept(s) && Honest(s, OtherProcessStarts(pid))
    ensures var next := s.(procs := s.procs + [Process(pid, Alive, None)]);
            Alone(next) && Kept(next)
  {
    var next := s.(procs := s.procs + [Process(pid, Alive, None)]);
    assert forall k :: InFlight(next, k) == InFlight(s, k) && Pending(next, k) == Pending(s, k);
    assert forall k :: AtRegistering(next, k) == AtRegistering(s, k);
    MoreProcessesKeep(s, next, pid);
  }

  lemma StartKeeps(cfg: Config, s: State, t: Thread)
    requires Tracking(cfg, s) && OneAtATime(s) && RunInBounds(cfg, s) && CanStart(s, t) && Alone(s) && Kept(s)
    ensures Alone(StartedOk(cfg, s, t)) && Kept(StartedOk(cfg, s, t))
  {
    var next := StartedOk(cfg, s, t);
    var own := StartingAt(s, t).value.serial;
    assert forall k | 0 <= k < |s.procs| && k != own :: next.procs[k] == s.procs[k];
    assert forall k :: InFlight(next, k) == InFlight(s, k) && IsTracked(next, k) == IsTracked(s, k);
    assert forall k :: Pending(next, k) == Pending(s, k);
    assert AtRegistering(next, own);
    assert forall k | k != own :: AtRegistering(s, k) ==> AtRegistering(next, k);
  }

  lemma RegisterKeeps(cfg: Config, s: State, t: Thread, pid: int)
    requires Tracking(cfg, s) && OneAtATime(s) && CanRegister(cfg, s, t) && Honest(s, Registers(t, pid))
    requires Alone(s) && Kept(s)
    ensures Alone(RegisteredBy(cfg, s, t, pid)) && Kept(RegisteredBy(cfg, s, t, pid))
  {
    var next := RegisteredBy(cfg, s, t, pid);
    var own := StartingAt(s, t).value.serial;
    assert Pending(s, own);
    assert pid !in s.tracked by {
      assert forall p | p in s.tracked :: IsTracked(s, s.tracked[p]);
    }
    assert next.tracked == s.tracked[pid := own];
    assert forall k :: InFlight(next, k) == InFlight(s, k);
    assert forall k :: Pending(next, k) ==> Pending(s, k);
    forall k: nat ensures IsTracked(next, k) == (k == own || IsTracked(s, k)) {
      AddingTracks(s, next, pid, own, k);
    }
    assert forall k | k != own :: AtRegistering(s, k) ==> AtRegistering(next, k);
  }

  lemma AddingTracks(s: State, next: State, pid: int, own: nat, k: nat)
    requires pid !in s.tracked && next.tracked == s.tracked[pid := own]
    ensures IsTracked(next, k) == (k == own || IsTracked(s, k))
  {
    assert pid in next.tracked;
    if IsTracked(s, k) {
      var p :| p in s.tracked && s.tracked[p] == k;
      assert p in next.tracked && next.tracked[p] == k;
    }
  }

  /** Where every held process with a registered pid is the registered one, so is that of the head event. */
  lemma ReceiveKeeps(cfg: Config, s: State)
    requires Tracking(cfg, s) && OneAtATime(s) && CanReceive(s) && Alone(s) && Kept(s)
    ensures Alone(Received(s)) && Kept(Received(s))
  {
    var next, e := Received(s), s.channel[0];
    HeadEvent(cfg, s);
    FlightAfterReceive(cfg, s);
    assert EventOk(s, e) && Held(s, e.serial);
    assert forall k :: Pending(next, k) == Pending(s, k) && AtRegistering(next, k) == AtRegistering(s, k);
    if e.pid in s.shared.pidIndex {
      assert s.tracked[e.pid] == e.serial;
      forall k: nat ensures IsTracked(next, k) == (IsTracked(s, k) && k != e.serial) {
        TrackedAfterHandling(cfg, s, k);
      }
    } else {
      assert forall k :: IsTracked(next, k) == IsTracked(s, k);
      assert e.pid !in s.tracked && next.tracked == s.tracked;
    }
  }

  lemma HonestKeeps(cfg: Config, s: State, step: Step)
    requires Tracking(cfg, s) && OneAtATime(s) && Alone(s) && Kept(s) && Enabled(cfg, s, step) && Honest(s, step)
    ensures Alone(Next(cfg, s, step)) && Kept(Next(cfg, s, step))
  {
    match step
    case CreateSucceeds(t, pid) => CreateKeeps(cfg, s, t, pid);
    case OtherProcessStarts(pid) => OtherProcessKeeps(cfg, s, pid);
    case StartSucceeds(t) => StartKeeps(cfg, s, t);
    case Registers(t, pid) => RegisterKeeps(cfg, s, t, pid);
    case Receives => ReceiveKeeps(cfg, s);
    case ProcessExits(_, _) => ReaperKeeps(cfg, s, step);
    case ReaperCollects(_) => ReaperKeeps(cfg, s, step);
    case ReaperPushes => PushKeeps(cfg, s);
    case _ => UnrelatedKeeps(cfg, s, step);
  }

  lemma {:induction false} EveryHonestRunTracks(cfg: Config, steps: seq<Step>, s: State)
    requires UniqueIds(cfg.containers) && After(cfg, steps) == Some(s) && HonestRun(cfg, steps)
    ensures Tracking(cfg, s) && Alone(s) && Kept(s)
  {
    HonestRunIsTruthful(cfg, steps);
    EveryTruthfulRunTracks(cfg, steps, s);
    if steps != [] {
      var fewer := steps[..|steps| - 1];
      var before := After(cfg, fewer).value;
      EveryHonestRunTracks(cfg, fewer, before);
      EveryRunIsSafe(cfg, fewer);
      HonestKeeps(cfg, before, steps[|steps| - 1]);
    }
  }

  /** Each exit is handled at most once and for the container its process was started for. A process of a
      container whose event has left the reaper's hand and the channel was handled unless it was dropped;
      and then the index keeps its stale entry. */
  lemma OnlyDroppedExitsAreMissed(cfg: Config, steps: seq<Step>, s: State)
    requires UniqueIds(cfg.containers) && After(cfg, steps) == Some(s) && HonestRun(cfg, steps)
    ensures forall i, j | 0 <= i < j < |s.handled| :: s.handled[i].serial != s.handled[j].serial
    ensures forall i | 0 <= i < |s.handled| ::
              s.handled[i].serial < |s.procs| && s.procs[s.handled[i].serial].owner == Some(s.handled[i].id)
    ensures forall k | 0 <= k < |s.procs| && s.procs[k].owner.Some? ::
              WasHandled(s, k, s.procs[k].owner.value) <==>
              s.procs[k].phase.Collected? && !InFlight(s, k) && k !in s.dropped
    ensures forall k | 0 <= k < |s.procs| && k in s.dropped && s.procs[k].owner.Some? && !AtRegistering(s, k) ::
              s.procs[k].pid in s.shared.pidIndex && s.shared.pidIndex[s.procs[k].pid] == s.procs[k].owner.value
  {
    EveryHonestRunTracks(cfg, steps, s);
  }

  /** While nothing is dropped, the kernel's own rule covers what the supervisor holds beyond events. */
  lemma GrantedIsHonest(cfg: Config, s: State, step: Step)
    requires Tracking(cfg, s) && s.dropped == {} && Enabled(cfg, s, step) && Granted(s, step)
    ensures Honest(s, step)
  {
    if GivesPid(step) {
      forall k | 0 <= k < |s.procs| && Unheard(s, k) ensures s.procs[k].pid != step.pid {
        if InFlight(s, k) {
          FlightHasPid(s, k);
        }
      }
      assert forall p | p in s.tracked :: Unheard(s, s.tracked[p]);
      assert forall k | 0 <= k < |s.procs| && Pending(s, k) :: Unheard(s, k);
    }
  }

  lemma RoomDropsNothing(cfg: Config, s: State, step: Step)
    requires Enabled(cfg, s, step) && Granted(s, step)
    ensures Next(cfg, s, step).dropped == s.dropped
  {}

  lemma {:induction false} GrantedRunIsHonest(cfg: Config, steps: seq<Step>, s: State)
    requires UniqueIds(cfg.containers) && After(cfg, steps) == Some(s) && GrantedRun(cfg, steps)
    ensures HonestRun(cfg, steps) && s.dropped == {}
  {
    if steps != [] {
      var fewer := steps[..|steps| - 1];
      var before := After(cfg, fewer).value;
      GrantedRunIsHonest(cfg, fewer, before);
      EveryHonestRunTracks(cfg, fewer, before);
      GrantedIsHonest(cfg, before, steps[|steps| - 1]);
      RoomDropsNothing(cfg, before, steps[|steps| - 1]);
    }
  }

  /** With room in the channel no exit is missed at all. */
  lemma NoExitIsMissed(cfg: Config, steps: seq<Step>, s: State)
    requires UniqueIds(cfg.containers) && After(cfg, steps) == Some(s) && GrantedRun(cfg, steps)
    ensures forall i, j | 0 <= i < j < |s.handled| :: s.handled[i].serial != s.handled[j].serial
    ensures forall i | 0 <= i < |s.handled| ::
              s.handled[i].serial < |s.procs| && s.procs[s.handled[i].serial].owner == Some(s.handled[i].id)
    ensures forall k | 0 <= k < |s.procs| && s.procs[k].owner.Some? ::
              (s.procs[k].phase.Collected? && !InFlight(s, k)) <==> WasHandled(s, k, s.procs[k].owner.value)
  {
    GrantedRunIsHonest(cfg, steps, s);
    OnlyDroppedExitsAreMissed(cfg, steps, s);
  }

  /** An event of a container's process never reaches the consumer before its pid is registered. */
  lemma ReceivedExitIsRegistered(cfg: Config, steps: seq<Step>, s: State)
    requires UniqueIds(cfg.containers) && After(cfg, steps) == Some(s) && HonestRun(cfg, steps)
    requires CanReceive(s)
    ensures var e := s.channel[0];
            e.serial < |s.procs| &&
            (s.procs[e.serial].owner.Some? <==> e.pid in s.shared.pidIndex) &&
            (e.pid in s.shared.pidIndex ==> s.procs[e.serial].owner == Some(s.shared.pidIndex[e.pid]))
  {
    EveryHonestRunTracks(cfg, steps, s);
    EveryRunIsSafe(cfg, steps);
    HeadEvent(cfg, s);
  }

  /** No thread has started a process that it still has to register. */
  predicate NoneRegistering(s: State) {
    && (AtStart(s, Runner) ==> !StartingAt(s, Runner).value.Registering?)
    && (AtStart(s, Consumer) ==> !StartingAt(s, Consumer).value.Registering?)
  }

  /** The consumer has handled the exit of every process that was started for a container. */
  predicate AllHandled(s: State) {
    forall k | 0 <= k < |s.procs| && s.procs[k].owner.Some? :: WasHandled(s, k, s.procs[k].owner.value)
  }

  lemma UnheardMeansUnhandled(cfg: Config, s: State, k: nat)
    requires Tracking(cfg, s) && k < |s.procs| && Unheard(s, k) && s.procs[k].owner.Some?
    ensures !AllHandled(s)
  {
    assert !WasHandled(s, k, s.procs[k].owner.value);
  }

  lemma RegisteredMeansUnhandled(cfg: Config, s: State, pid: int)
    requires Tracking(cfg, s) && pid in s.shared.pidIndex
    ensures !AllHandled(s)
  {
    UnheardMeansUnhandled(cfg, s, s.tracked[pid]);
  }

  lemma RegisteringMeansUnhandled(cfg: Config, s: State, t: Thread)
    requires Tracking(cfg, s) && AtStart(s, t) && StartingAt(s, t).value.Registering?
    ensures !AllHandled(s)
  {
    assert StartOk(cfg, s, t);
    UnheardMeansUnhandled(cfg, s, StartingAt(s, t).value.serial);
  }

  lemma IdleMeansHandled(cfg: Config, s: State)
    requires Tracking(cfg, s) && Kept(s) && s.shared.pidIndex == map[] && NoneRegistering(s)
    ensures AllHandled(s)
  {
    assert s.tracked == map[];
    assert forall k :: !IsTracked(s, k) && !AtRegistering(s, k);
  }

  lemma SomeKey(index: map<int, string>) returns (pid: int)
    requires index != map[]
    ensures pid in index
  {
    assert |index| != 0 && |index.Items| != 0;
    var item :| item in index.Items;
    pid := item.0;
  }

  /** Every started process has been handled exactly when no pid is registered and none is about to be. */
  lemma AllHandledIffIdle(cfg: Config, steps: seq<Step>, s: State)
    requires UniqueIds(cfg.containers) && After(cfg, steps) == Some(s) && HonestRun(cfg, steps)
    ensures AllHandled(s) <==> s.shared.pidIndex == map[] && NoneRegistering(s)
  {
    EveryHonestRunTracks(cfg, steps, s);
    if s.shared.pidIndex != map[] {
      var pid := SomeKey(s.shared.pidIndex);
      RegisteredMeansUnhandled(cfg, s, pid);
    } else if AtStart(s, Runner) && StartingAt(s, Runner).value.Registering? {
      RegisteringMeansUnhandled(cfg, s, Runner);
    } else if AtStart(s, Consumer) && StartingAt(s, Consumer).value.Registering? {
      RegisteringMeansUnhandled(cfg, s, Consumer);
    } else {
      IdleMeansHandled(cfg, s);
    }
  }
}
