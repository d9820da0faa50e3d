/** What ties the pid index to the processes: with true pids, each entry names a process of its container
    whose end the consumer has not heard of. */
module LifecycleTracking {
  import opened Common
  import opened PodSpec
  import opened Lifecycle
  import opened LifecycleSafety
  import opened LifecycleAccounts

  /** An event about this process is in the reaper's hand or in the channel. */
  predicate InFlight(s: State, k: nat) {
    (s.hand.Some? && s.hand.value.serial == k) || (exists i | 0 <= i < |s.channel| :: s.channel[i].serial == k)
  }

  predicate PidInFlight(s: State, pid: int) {
    (s.hand.Some? && s.hand.value.pid == pid) || (exists i | 0 <= i < |s.channel| :: s.channel[i].pid == pid)
  }

  /** A thread is between creating this process and registering its pid. */
  predicate PendingBy(s: State, t: Thread, k: nat) {
    AtStart(s, t) && !StartingAt(s, t).value.Creating? && StartingAt(s, t).value.serial == k
  }

  predicate Pending(s: State, k: nat) {
    PendingBy(s, Runner, k) || PendingBy(s, Consumer, k)
  }

  predicate PidPending(s: State, pid: int) {
    exists k | 0 <= k < |s.procs| :: Pending(s, k) && s.procs[k].pid == pid
  }

  /** The runtime reports true pids, and no pid is given out again while an event about it is under way or a
      registration of it is to come. */
  predicate Truthful(s: State, step: Step) {
    match step
    case Registers(t, pid) =>
      AtStart(s, t) && StartingAt(s, t).value.Registering? && StartingAt(s, t).value.serial < |s.procs|
      && pid == s.procs[StartingAt(s, t).value.serial].pid
    case CreateSucceeds(_, pid) => !PidInFlight(s, pid) && !PidPending(s, pid)
    case OtherProcessStarts(pid) => !PidInFlight(s, pid) && !PidPending(s, pid)
    case _ => true
  }

  predicate TruthfulRun(cfg: Config, steps: seq<Step>) {
    steps == [] ||
    var before := steps[..|steps| - 1];
    && TruthfulRun(cfg, before)
    && After(cfg, before).Some?
    && Truthful(After(cfg, before).value, steps[|steps| - 1])
  }

  /** The consumer has not heard of the end of this process, and may never. */
  predicate Unheard(s: State, k: nat)
    requires k < |s.procs|
  {
    !s.procs[k].phase.Collected? || InFlight(s, k) || k in s.dropped
  }

  /** The process still occupies its pid, in the kernel, in an event or for a registration to come. */
  predicate Held(s: State, k: nat)
    requires k < |s.procs|
  {
    !s.procs[k].phase.Collected? || InFlight(s, k) || Pending(s, k)
  }

  ghost predicate EventOk(s: State, e: Reaped) {
    e.serial < |s.procs| && s.procs[e.serial].phase.Collected? && s.procs[e.serial].pid == e.pid
  }

  ghost predicate EventsOk(s: State) {
    && (forall i | 0 <= i < |s.channel| :: EventOk(s, s.channel[i]))
    && (forall i, j | 0 <= i < j < |s.channel| :: s.channel[i].serial != s.channel[j].serial)
    && (s.hand.Some? ==>
          && EventOk(s, s.hand.value)
          && forall i | 0 <= i < |s.channel| :: s.channel[i].serial != s.hand.value.serial)
  }

  ghost predicate PidsOk(s: State) {
    && (forall k | 0 <= k < |s.procs| :: s.procs[k].pid > 0)
    && (forall j, k | 0 <= j < k < |s.procs| && Held(s, j) && Held(s, k) :: s.procs[j].pid != s.procs[k].pid)
  }

  ghost predicate TrackedOk(s: State) {
    && s.tracked.Keys == s.shared.pidIndex.Keys
    && forall p | p in s.tracked ::
         var k := s.tracked[p];
         k < |s.procs| && s.procs[k].pid == p && s.procs[k].owner == Some(s.shared.pidIndex[p]) && Unheard(s, k)
  }

  ghost predicate DroppedOk(s: State) {
    forall k | k in s.dropped :: k < |s.procs| && s.procs[k].phase.Collected? && !InFlight(s, k)
  }

  predicate IsTracked(s: State, k: nat) {
    exists p | p in s.tracked :: s.tracked[p] == k
  }

  predicate AtRegistering(s: State, k: nat) {
    StartingAt(s, Runner) == Some(Registering(k)) || StartingAt(s, Consumer) == Some(Registering(k))
  }

  predicate WasHandled(s: State, k: nat, id: string) {
    exists i | 0 <= i < |s.handled| :: s.handled[i].serial == k && s.handled[i].id == id
  }

  ghost predicate OwnedOk(s: State) {
    forall k | 0 <= k < |s.procs| && s.procs[k].owner.Some? ::
      IsTracked(s, k) || AtRegistering(s, k) || WasHandled(s, k, s.procs[k].owner.value) || k in s.dropped
  }

  ghost predicate HandledOk(s: State) {
    && (forall i | 0 <= i < |s.handled| ::
          var h := s.handled[i];
          && h.serial < |s.procs| && !Unheard(s, h.serial)
          && (s.procs[h.serial].owner == Some(h.id) || s.procs[h.serial].owner == None))
    && (forall i, j | 0 <= i < j < |s.handled| :: s.handled[i].serial != s.handled[j].serial)
  }

  ghost predicate StartOk(cfg: Config, s: State, t: Thread) {
    AtStart(s, t) && !StartingAt(s, t).value.Creating? ==>
      var pc := StartingAt(s, t).value;
      && pc.serial < |s.procs| && Unheard(s, pc.serial) && !IsTracked(s, pc.serial)
      && RunInBounds(cfg, s)
      && s.procs[pc.serial].owner == if pc.Starting? then None else Some(StartId(cfg, s, t))
  }

  ghost predicate Tracking(cfg: Config, s: State) {
    && EventsOk(s) && PidsOk(s) && TrackedOk(s) && OwnedOk(s) && HandledOk(s) && DroppedOk(s)
    && StartOk(cfg, s, Runner) && StartOk(cfg, s, Consumer)
  }

  predicate SameEvidence(s: State, next: State) {
    && next.procs == s.procs && next.hand == s.hand && next.channel == s.channel && next.handled == s.handled
    && next.tracked == s.tracked && next.shared.pidIndex == s.shared.pidIndex && next.dropped == s.dropped
  }

  /** The invariant speaks of processes, events and registrations only. */
  lemma SameView(cfg: Config, s: State, next: State)
    requires Tracking(cfg, s)
    requires SameEvidence(s, next)
    requires forall k :: AtRegistering(next, k) == AtRegistering(s, k)
    requires forall k | 0 <= k < |s.procs| && Pending(next, k) :: Held(s, k)
    requires StartOk(cfg, next, Runner) && StartOk(cfg, next, Consumer)
    ensures Tracking(cfg, next)
  {
    assert forall k :: InFlight(next, k) == InFlight(s, k);
    assert forall k :: IsTracked(next, k) == IsTracked(s, k);
  }

  /** Steps that touch no process, event or registration. */
  predicate Unrelated(step: Step) {
    !step.CreateSucceeds? && !step.OtherProcessStarts? && !step.StartSucceeds? && !step.Registers? && !step.Receives?
    && !step.ProcessExits? && !step.ReaperCollects? && !step.ReaperPushes?
  }

  /** A thread stays where it is in startOne, is just entering it, or has left it before registering. */
  predicate StartKept(cfg: Config, s: State, next: State, t: Thread) {
    if StartingAt(next, t).None? then StartingAt(s, t).None? || !StartingAt(s, t).value.Registering?
    else if StartingAt(next, t) == Some(Creating) then
      StartingAt(s, t).None? || !StartingAt(s, t).value.Registering?
    else
      && StartingAt(next, t) == StartingAt(s, t)
      && RunInBounds(cfg, next) && RunInBounds(cfg, s) && StartId(cfg, next, t) == StartId(cfg, s, t)
  }

  lemma UnrelatedView(cfg: Config, s: State, step: Step)
    requires Enabled(cfg, s, step) && Unrelated(step)
    ensures SameEvidence(s, Next(cfg, s, step))
  {}

  lemma UnrelatedStarts(cfg: Config, s: State, step: Step, t: Thread)
    requires OneAtATime(s) && Enabled(cfg, s, step) && Unrelated(step)
    ensures StartKept(cfg, s, Next(cfg, s, step), t)
  {}

  lemma UnrelatedKeepsTracking(cfg: Config, s: State, step: Step)
    requires Tracking(cfg, s) && OneAtATime(s) && Enabled(cfg, s, step) && Unrelated(step)
    ensures Tracking(cfg, Next(cfg, s, step))
  {
    var next := Next(cfg, s, step);
    UnrelatedView(cfg, s, step);
    UnrelatedStarts(cfg, s, step, Runner);
    UnrelatedStarts(cfg, s, step, Consumer);
    assert forall k :: InFlight(next, k) == InFlight(s, k);
    assert forall k :: Pending(next, k) ==> Pending(s, k);
    assert forall k :: IsTracked(next, k) == IsTracked(s, k);
    SameView(cfg, s, next);
  }

  /** An event under way is about the pid of its process. */
  lemma FlightHasPid(s: State, k: nat)
    requires EventsOk(s) && k < |s.procs| && InFlight(s, k)
    ensures PidInFlight(s, s.procs[k].pid)
  {
    if !(s.hand.Some? && s.hand.value.serial == k) {
      var i :| 0 <= i < |s.channel| && s.channel[i].serial == k;
      assert EventOk(s, s.channel[i]);
    }
  }

  /** The kernel's rule and the truthful one together keep the pids of held processes apart. */
  lemma FreshPid(s: State, pid: int, k: nat)
    requires PidFree(s, pid) && Truthful(s, OtherProcessStarts(pid))
    requires EventsOk(s) && k < |s.procs| && Held(s, k)
    ensures s.procs[k].pid != pid
  {
    if InFlight(s, k) {
      FlightHasPid(s, k);
    }
  }

  /** What is known of events and handled exits speaks of processes that were there before. */
  lemma OldProcessesStay(cfg: Config, s: State, pid: int)
    requires Tracking(cfg, s)
    ensures var next := s.(procs := s.procs + [Process(pid, Alive, None)]);
            EventsOk(next) && DroppedOk(next) && HandledOk(next)
  {
    var next := s.(procs := s.procs + [Process(pid, Alive, None)]);
    assert forall k :: InFlight(next, k) == InFlight(s, k);
    assert forall i | 0 <= i < |s.channel| :: EventOk(s, s.channel[i]);
  }

  /** The new process has a pid of its own. */
  lemma NewPidIsOwn(cfg: Config, s: State, pid: int)
    requires Tracking(cfg, s) && PidFree(s, pid) && Truthful(s, OtherProcessStarts(pid))
    ensures PidsOk(s.(procs := s.procs + [Process(pid, Alive, None)]))
  {
    var next := s.(procs := s.procs + [Process(pid, Alive, None)]);
    assert forall k :: InFlight(next, k) == InFlight(s, k) && Pending(next, k) == Pending(s, k);
    forall k | 0 <= k < |s.procs| && Held(next, k) ensures next.procs[k].pid != pid {
      FreshPid(s, pid, k);
    }
  }

  /** A new process has no events and no registration, and leaves those of the others alone. */
  lemma AddProcess(cfg: Config, s: State, pid: int)
    requires Tracking(cfg, s) && PidFree(s, pid) && Truthful(s, OtherProcessStarts(pid))
    ensures Tracking(cfg, s.(procs := s.procs + [Process(pid, Alive, None)]))
    ensures !IsTracked(s, |s.procs|) && !AtRegistering(s, |s.procs|)
  {
    var next := s.(procs := s.procs + [Process(pid, Alive, None)]);
    OldProcessesStay(cfg, s, pid);
    NewPidIsOwn(cfg, s, pid);
    assert forall k | 0 <= k < |s.procs| :: next.procs[k] == s.procs[k];
    assert forall k :: InFlight(next, k) == InFlight(s, k) && IsTracked(next, k) == IsTracked(s, k);
    assert forall k :: AtRegistering(next, k) == AtRegistering(s, k);
  }

  lemma CreateKeepsTracking(cfg: Config, s: State, t: Thread, pid: int)
    requires Tracking(cfg, s) && RunInBounds(cfg, s) && StartingAt(s, t) == Some(Creating)
    requires PidFree(s, pid) && Truthful(s, CreateSucceeds(t, pid))
    ensures Tracking(cfg, Created(s, t, pid))
  {
    AddProcess(cfg, s, pid);
    var added := s.(procs := s.procs + [Process(pid, Alive, None)]);
    var next := Created(s, t, pid);
    assert SameEvidence(added, next);
    assert forall k | 0 <= k < |s.procs| :: Pending(next, k) ==> Pending(s, k);
    SameView(cfg, added, next);
  }

  /** Starting a process gives it its owner and changes nothing else that is known of processes. */
  lemma StartingView(cfg: Config, s: State, t: Thread)
    requires OneAtATime(s) && RunInBounds(cfg, s) && CanStart(s, t)
    ensures var next, own := StartedOk(cfg, s, t), StartingAt(s, t).value.serial;
            && |next.procs| == |s.procs|
            && (forall k | 0 <= k < |s.procs| ::
                  next.procs[k].pid == s.procs[k].pid && next.procs[k].phase == s.procs[k].phase
                  && (k != own ==> next.procs[k].owner == s.procs[k].owner))
            && next.tracked == s.tracked && next.shared == s.shared && next.handled == s.handled
            && next.dropped == s.dropped && next.hand == s.hand && next.channel == s.channel
            && (forall k :: InFlight(next, k) == InFlight(s, k))
            && (forall k :: IsTracked(next, k) == IsTracked(s, k))
            && (forall k :: Pending(next, k) == Pending(s, k))
            && AtRegistering(next, own)
            && (forall k | k != own :: AtRegistering(s, k) ==> AtRegistering(next, k))
  {
  }

  /** The process that is started has not been registered or handled. */
  lemma StartingOwners(cfg: Config, s: State, t: Thread)
    requires Tracking(cfg, s) && OneAtATime(s) && RunInBounds(cfg, s) && CanStart(s, t)
    ensures var next := StartedOk(cfg, s, t);
            TrackedOk(next) && OwnedOk(next) && HandledOk(next)
  {
    StartingView(cfg, s, t);
    assert StartOk(cfg, s, t);
    assert forall p | p in s.tracked :: IsTracked(s, s.tracked[p]);
  }

  lemma StartKeepsTracking(cfg: Config, s: State, t: Thread)
    requires Tracking(cfg, s) && OneAtATime(s) && RunInBounds(cfg, s) && CanStart(s, t)
    ensures Tracking(cfg, StartedOk(cfg, s, t))
  {
    var next := StartedOk(cfg, s, t);
    StartingView(cfg, s, t);
    StartingOwners(cfg, s, t);
    assert EventsOk(next) && PidsOk(next) && DroppedOk(next);
  }

  /** Only a stale entry can stand in the way of a registration. */
  lemma OverwrittenIsStale(cfg: Config, s: State, t: Thread, pid: int)
    requires Tracking(cfg, s) && CanRegister(cfg, s, t) && Truthful(s, Registers(t, pid))
    ensures pid in s.tracked ==> s.tracked[pid] in s.dropped
  {
    assert forall p | p in s.tracked :: IsTracked(s, s.tracked[p]);
    assert Pending(s, StartingAt(s, t).value.serial);
  }

  /** Registering tracks the process at hand and takes at most the process of a stale entry off. */
  lemma TrackedAfterRegistering(cfg: Config, s: State, t: Thread, pid: int, k: nat)
    requires Tracking(cfg, s) && CanRegister(cfg, s, t) && Truthful(s, Registers(t, pid))
    ensures var own, next := StartingAt(s, t).value.serial, RegisteredBy(cfg, s, t, pid);
            && (IsTracked(next, k) ==> k == own || IsTracked(s, k))
            && (k == own || (IsTracked(s, k) && k !in s.dropped) ==> IsTracked(next, k))
  {
    var next := RegisteredBy(cfg, s, t, pid);
    OverwrittenIsStale(cfg, s, t, pid);
    assert pid in next.tracked;
    if IsTracked(s, k) {
      var p :| p in s.tracked && s.tracked[p] == k;
      assert p != pid ==> p in next.tracked && next.tracked[p] == k;
    }
  }

  /** The registration touches no process, event or handled exit, and ends what was pending. */
  lemma RegisteringView(cfg: Config, s: State, t: Thread, pid: int)
    requires OneAtATime(s) && CanRegister(cfg, s, t)
    ensures var next, own := RegisteredBy(cfg, s, t, pid), StartingAt(s, t).value.serial;
            && next.procs == s.procs && next.hand == s.hand && next.channel == s.channel
            && next.handled == s.handled && next.dropped == s.dropped
            && (forall k :: InFlight(next, k) == InFlight(s, k))
            && (forall k :: Pending(next, k) ==> Pending(s, k))
            && (forall k | k != own :: AtRegistering(s, k) ==> AtRegistering(next, k))
            && !AtStart(next, t)
  {
  }

  lemma RegisteringTracks(cfg: Config, s: State, t: Thread, pid: int)
    requires Tracking(cfg, s) && OneAtATime(s)
    requires CanRegister(cfg, s, t) && Truthful(s, Registers(t, pid))
    ensures TrackedOk(RegisteredBy(cfg, s, t, pid))
  {
    RegisteringView(cfg, s, t, pid);
    assert StartOk(cfg, s, t);
  }

  lemma RegistersKeepsTracking(cfg: Config, s: State, t: Thread, pid: int)
    requires Tracking(cfg, s) && OneAtATime(s)
    requires CanRegister(cfg, s, t) && Truthful(s, Registers(t, pid))
    ensures Tracking(cfg, RegisteredBy(cfg, s, t, pid))
  {
    var next := RegisteredBy(cfg, s, t, pid);
    var own := StartingAt(s, t).value.serial;
    RegisteringView(cfg, s, t, pid);
    RegisteringTracks(cfg, s, t, pid);
    forall k: nat
      ensures IsTracked(next, k) ==> k == own || IsTracked(s, k)
      ensures k == own || (IsTracked(s, k) && k !in s.dropped) ==> IsTracked(next, k)
    {
      TrackedAfterRegistering(cfg, s, t, pid, k);
    }
  }

  /** Pids, owners and registrations stay, and no process is held that was not. */
  predicate SameProcesses(s: State, next: State) {
    && |next.procs| == |s.procs|
    && (forall k | 0 <= k < |s.procs| ::
          && next.procs[k].pid == s.procs[k].pid && next.procs[k].owner == s.procs[k].owner
          && Unheard(next, k) == Unheard(s, k) && (Held(next, k) ==> Held(s, k)))
    && next.tracked == s.tracked && next.shared == s.shared && next.handled == s.handled
    && next.run == s.run && next.consumer == s.consumer
  }

  lemma SameProcessesKeepTracking(cfg: Config, s: State, next: State)
    requires Tracking(cfg, s) && SameProcesses(s, next) && EventsOk(next) && HandledOk(next) && DroppedOk(next)
    ensures Tracking(cfg, next)
  {
    assert forall k :: IsTracked(next, k) == IsTracked(s, k);
    assert forall k :: AtRegistering(next, k) == AtRegistering(s, k);
  }

  lemma ExitKeepsTracking(cfg: Config, s: State, own: nat, status: ExitStatus)
    requires Tracking(cfg, s) && own < |s.procs| && s.procs[own].phase.Alive?
    ensures Tracking(cfg, Exited(s, own, status))
  {
    var next := Exited(s, own, status);
    assert forall k :: InFlight(next, k) == InFlight(s, k);
    assert forall k :: Pending(next, k) == Pending(s, k) && IsTracked(next, k) == IsTracked(s, k);
    assert HandledOk(next);
    SameProcessesKeepTracking(cfg, s, next);
  }

  lemma CollectKeepsTracking(cfg: Config, s: State, own: nat)
    requires Tracking(cfg, s) && own < |s.procs| && s.procs[own].phase.Zombie? && s.hand.None?
    ensures Tracking(cfg, CollectedBy(s, own))
  {
    var next := CollectedBy(s, own);
    assert forall k :: InFlight(next, k) == (InFlight(s, k) || k == own);
    assert forall k :: Pending(next, k) == Pending(s, k) && IsTracked(next, k) == IsTracked(s, k);
    assert forall i | 0 <= i < |s.channel| :: EventOk(s, s.channel[i]);
    assert EventsOk(next);
    assert HandledOk(next);
    SameProcessesKeepTracking(cfg, s, next);
  }

  lemma PushKeepsTracking(cfg: Config, s: State)
    requires Tracking(cfg, s) && s.hand.Some? && |s.channel| < CHANNEL_SIZE
    ensures Tracking(cfg, Pushed(s))
  {
    var next := Pushed(s);
    var ev := s.hand.value;
    assert next.channel[|s.channel|] == ev;
    forall k ensures InFlight(next, k) == InFlight(s, k) {
      if InFlight(s, k) && k != ev.serial {
        var i :| 0 <= i < |s.channel| && s.channel[i].serial == k;
        assert next.channel[i].serial == k;
      }
    }
    assert forall k :: Pending(next, k) == Pending(s, k) && IsTracked(next, k) == IsTracked(s, k);
    assert EventsOk(next);
    assert HandledOk(next);
    SameProcessesKeepTracking(cfg, s, next);
  }

  /** A full channel drops the event, and only that. */
  lemma DropKeepsTracking(cfg: Config, s: State)
    requires Tracking(cfg, s) && s.hand.Some? && |s.channel| >= CHANNEL_SIZE
    ensures Tracking(cfg, Pushed(s))
  {
    var next := Pushed(s);
    assert EventOk(s, s.hand.value);
    assert forall k :: InFlight(next, k) == (InFlight(s, k) && k != s.hand.value.serial);
    assert forall k :: Pending(next, k) == Pending(s, k) && IsTracked(next, k) == IsTracked(s, k);
    assert EventsOk(next);
    assert HandledOk(next);
    SameProcessesKeepTracking(cfg, s, next);
  }

  /** The event at the head of the channel belongs to the process its pid is registered for, or the entry is
      a stale one. */
  lemma HeadEvent(cfg: Config, s: State)
    requires Tracking(cfg, s) && OneAtATime(s) && CanReceive(s)
    ensures var e := s.channel[0];
            && e.serial < |s.procs| && InFlight(s, e.serial) && e.serial !in s.dropped
            && (e.pid in s.tracked ==> s.tracked[e.pid] == e.serial || s.tracked[e.pid] in s.dropped)
            && (e.pid in s.tracked && s.tracked[e.pid] != e.serial ==>
                  !IsTracked(s, e.serial) && s.procs[e.serial].owner.None?)
            && (e.pid !in s.tracked ==> !IsTracked(s, e.serial) && s.procs[e.serial].owner.None?)
            && (forall i | 0 <= i < |s.handled| :: s.handled[i].serial != e.serial)
  {
    var e := s.channel[0];
    assert EventOk(s, e);
    assert InFlight(s, e.serial);
    assert !AtRegistering(s, e.serial);
  }

  lemma FlightAfterReceive(cfg: Config, s: State)
    requires EventsOk(s) && CanReceive(s)
    ensures var next := Received(s);
            forall k :: InFlight(next, k) == (InFlight(s, k) && k != s.channel[0].serial)
  {
    var next := Received(s);
    forall k ensures InFlight(next, k) == (InFlight(s, k) && k != s.channel[0].serial) {
      if InFlight(s, k) && k != s.channel[0].serial && !(s.hand.Some? && s.hand.value.serial == k) {
        var i :| 0 <= i < |s.channel| && s.channel[i].serial == k;
        assert next.channel[i - 1].serial == k;
      }
    }
  }

  lemma IgnoredEventKeepsTracking(cfg: Config, s: State)
    requires Tracking(cfg, s) && OneAtATime(s) && CanReceive(s) && s.channel[0].pid !in s.shared.pidIndex
    ensures Tracking(cfg, Received(s))
  {
    var next := Received(s);
    HeadEvent(cfg, s);
    FlightAfterReceive(cfg, s);
    assert forall k :: IsTracked(next, k) == IsTracked(s, k);
    assert forall k :: AtRegistering(next, k) == AtRegistering(s, k);
    assert forall k :: Pending(next, k) == Pending(s, k);
    assert forall p | p in s.tracked :: IsTracked(s, s.tracked[p]);
  }

  /** Handling the head event takes off the process whose pid it is registered as, and no other. */
  lemma TrackedAfterHandling(cfg: Config, s: State, k: nat)
    requires Tracking(cfg, s) && OneAtATime(s) && CanReceive(s) && s.channel[0].pid in s.shared.pidIndex
    ensures IsTracked(Received(s), k) == (IsTracked(s, k) && k != s.tracked[s.channel[0].pid])
  {
    var next, e := Received(s), s.channel[0];
    if IsTracked(s, k) && k != s.tracked[e.pid] {
      var p :| p in s.tracked && s.tracked[p] == k;
      assert p in next.tracked && next.tracked[p] == k;
    }
    if IsTracked(next, k) {
      var p :| p in next.tracked && next.tracked[p] == k;
      assert s.procs[k].pid == p;
    }
  }

  lemma HandledAfterHandling(cfg: Config, s: State)
    requires Tracking(cfg, s) && OneAtATime(s) && CanReceive(s) && s.channel[0].pid in s.shared.pidIndex
    ensures HandledOk(Received(s)) && TrackedOk(Received(s))
  {
    var next := Received(s);
    HeadEvent(cfg, s);
    FlightAfterReceive(cfg, s);
    assert EventOk(s, s.channel[0]);
    forall p | p in next.tracked ensures next.tracked[p] != s.channel[0].serial {
      assert s.procs[s.tracked[p]].pid == p;
    }
  }

  lemma OwnersAfterHandling(cfg: Config, s: State)
    requires Tracking(cfg, s) && OneAtATime(s) && CanReceive(s) && s.channel[0].pid in s.shared.pidIndex
    ensures OwnedOk(Received(s))
  {
    var next, e := Received(s), s.channel[0];
    HeadEvent(cfg, s);
    assert next.handled[|s.handled|] == Handled(s.shared.pidIndex[e.pid], e.serial, e.status.Failing());
    forall k | 0 <= k < |next.procs| && next.procs[k].owner.Some?
      ensures IsTracked(next, k) || AtRegistering(next, k) || WasHandled(next, k, next.procs[k].owner.value)
              || k in next.dropped
    {
      TrackedAfterHandling(cfg, s, k);
      assert !AtRegistering(s, k);
      if k == e.serial {
        assert WasHandled(next, k, s.shared.pidIndex[e.pid]);
      } else if WasHandled(s, k, s.procs[k].owner.value) {
        var i :| 0 <= i < |s.handled| && s.handled[i].serial == k && s.handled[i].id == s.procs[k].owner.value;
        assert next.handled[i] == s.handled[i];
      }
    }
  }

  lemma HandledEventKeepsTracking(cfg: Config, s: State)
    requires Tracking(cfg, s) && OneAtATime(s) && CanReceive(s) && s.channel[0].pid in s.shared.pidIndex
    ensures Tracking(cfg, Received(s))
  {
    HandledAfterHandling(cfg, s);
    OwnersAfterHandling(cfg, s);
    FlightAfterReceive(cfg, s);
    var next := Received(s);
    forall k | 0 <= k < |s.procs| && Held(next, k) ensures Held(s, k) {
      TrackedAfterHandling(cfg, s, k);
    }
  }

  lemma StepKeepsTracking(cfg: Config, s: State, step: Step)
    requires Tracking(cfg, s) && OneAtATime(s) && Enabled(cfg, s, step) && Truthful(s, step)
    ensures Tracking(cfg, Next(cfg, s, step))
  {
    match step {
      case CreateSucceeds(t, pid) => CreateKeepsTracking(cfg, s, t, pid);
      case OtherProcessStarts(pid) => AddProcess(cfg, s, pid);
      case StartSucceeds(t) => StartKeepsTracking(cfg, s, t);
      case Registers(t, pid) => RegistersKeepsTracking(cfg, s, t, pid);
      case Receives =>
        if s.channel[0].pid in s.shared.pidIndex {
          HandledEventKeepsTracking(cfg, s);
        } else {
          IgnoredEventKeepsTracking(cfg, s);
        }
      case ProcessExits(k, status) => ExitKeepsTracking(cfg, s, k, status);
      case ReaperCollects(k) => CollectKeepsTracking(cfg, s, k);
      case ReaperPushes =>
        if |s.channel| < CHANNEL_SIZE {
          PushKeepsTracking(cfg, s);
        } else {
          DropKeepsTracking(cfg, s);
        }
      case _ => UnrelatedKeepsTracking(cfg, s, step);
    }
  }

  lemma {:induction false} EveryTruthfulRunTracks(cfg: Config, steps: seq<Step>, s: State)
    requires UniqueIds(cfg.containers) && After(cfg, steps) == Some(s) && TruthfulRun(cfg, steps)
    ensures Tracking(cfg, s)
  {
    if steps != [] {
      var fewer := steps[..|steps| - 1];
      var before := After(cfg, fewer).value;
      EveryTruthfulRunTracks(cfg, fewer, before);
      EveryRunIsSafe(cfg, fewer);
      StepKeepsTracking(cfg, before, steps[|steps| - 1]);
    }
  }

  /** The index entry of a pid is stale: the event of the process it was made for was dropped. */
  predicate Stale(s: State, pid: int) {
    pid in s.tracked && s.tracked[pid] in s.dropped
  }

  /** An exit is handled for a container exactly if the process was started for it, unless the entry of its
      pid is stale; then, and only then, the pid was given out again, to a process of no container, whose
      exit is taken for that of the container. */
  lemma WrongExitIffStale(cfg: Config, steps: seq<Step>, s: State)
    requires UniqueIds(cfg.containers) && After(cfg, steps) == Some(s) && TruthfulRun(cfg, steps)
    requires CanReceive(s) && s.channel[0].pid in s.shared.pidIndex
    ensures var e := s.channel[0];
            && Received(s).handled[|s.handled|] == Handled(s.shared.pidIndex[e.pid], e.serial, e.status.Failing())
            && e.serial < |s.procs|
            && (s.procs[e.serial].owner == Some(s.shared.pidIndex[e.pid]) <==> !Stale(s, e.pid))
            && (Stale(s, e.pid) ==> s.procs[e.serial].owner == None && s.tracked[e.pid] != e.serial)
  {
    EveryTruthfulRunTracks(cfg, steps, s);
    EveryRunIsSafe(cfg, steps);
    HeadEvent(cfg, s);
  }
}
