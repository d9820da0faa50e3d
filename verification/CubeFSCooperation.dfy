/** When every call of the registry succeeds, so that its final state is that of the publish log alone. */
module CubeFSCooperation {
  import opened Common
  import opened CubeFS
  import opened CubeFSLog

  /** The entries at a path. */
  function At(active: map<string, Entry>, path: string): set<string> {
    set id | id in active && active[id].mountPoint == path
  }

  /** A system in which helpers work, clients start and mount before the deadline, and no mount vanishes. A
      mount counts as a client's only when it comes on top of those of the other entries at the path. */
  predicate Cooperative(s: State, step: Step) {
    match step
    case BeginApply(_, works) => works
    case Launch(started, _) => started
    case MountSeen => s.phase.Waiting? && s.mounts[s.phase.msg.mountPoint] > |At(s.active, s.phase.msg.mountPoint)|
    case DeadlineFires => false
    case MountVanishes(_) => false
    case BeginSweep => false
    case _ => true
  }

  /** With no two active entries at one path, seeing the mount is enough. */
  lemma DistinctPathsCooperate(s: State)
    requires Enabled(s, MountSeen) && forall id | id in s.active :: s.active[id].mountPoint != s.phase.msg.mountPoint
    ensures Cooperative(s, MountSeen)
  {
    assert At(s.active, s.phase.msg.mountPoint) == {};
  }

  predicate CooperativeRun(s: State, run: seq<Step>)
    decreases |run|
  {
    run == [] || (Enabled(s, run[0]) && Cooperative(s, run[0]) && CooperativeRun(Next(s, run[0]), run[1..]))
  }

  /** The messages whose calls begin in a run. */
  function Begun(run: seq<Step>): seq<Message> {
    if run == [] then [] else (if run[0].BeginApply? then [run[0].msg] else []) + Begun(run[1..])
  }

  /** The event that a call under way will leave. */
  function Owed(phase: Phase): seq<Event> {
    match phase
    case Stopping(msg, _) => [Handled(msg, Done)]
    case Launching(msg) => [Handled(msg, Done)]
    case Waiting(msg, _) => [Handled(msg, Done)]
    case _ => []
  }

  /** The entry just detached, as long as it is still there. */
  predicate Detaching(s: State, path: string) {
    s.phase.Stopping? && s.phase.msg.id in s.active && s.active[s.phase.msg.id].mountPoint == path
  }

  /** Every path has a mount for each entry at it. */
  ghost predicate Covered(s: State) {
    && (s.phase.Stopping? ==> s.phase.detached)
    && !s.phase.Failing? && !s.phase.Sweeping? && !s.phase.SweepStopping?
    && forall path :: s.mounts[path] + (if Detaching(s, path) then 1 else 0) >= |At(s.active, path)|
  }

  lemma EntryIsAt(active: map<string, Entry>, id: string)
    requires id in active
    ensures |At(active, active[id].mountPoint)| >= 1
  {
    assert id in At(active, active[id].mountPoint);
  }

  lemma AtAfterRemoving(active: map<string, Entry>, id: string, path: string)
    requires id in active
    ensures |At(active - {id}, path)| == |At(active, path)| - if active[id].mountPoint == path then 1 else 0
  {
    if active[id].mountPoint == path {
      assert At(active, path) == At(active - {id}, path) + {id};
    } else {
      assert At(active, path) == At(active - {id}, path);
    }
  }

  lemma AtAfterAdding(active: map<string, Entry>, id: string, entry: Entry, path: string)
    requires id !in active
    ensures |At(active[id := entry], path)| == |At(active, path)| + if entry.mountPoint == path then 1 else 0
  {
    assert active[id := entry] - {id} == active;
    AtAfterRemoving(active[id := entry], id, path);
  }

  lemma BeginCovers(s: State, msg: Message)
    requires Sound(s) && Covered(s) && Enabled(s, BeginApply(msg, true))
    ensures var next := Next(s, BeginApply(msg, true));
            Covered(next) && next.history + Owed(next.phase) == s.history + [Handled(msg, Done)]
  {
    var next := Next(s, BeginApply(msg, true));
    if msg.id in s.active {
      EntryIsAt(s.active, msg.id);
      assert s.mounts[s.active[msg.id].mountPoint] >= 1;
    }
  }

  lemma ReaperCovers(s: State)
    requires Sound(s) && Covered(s) && Enabled(s, ReaperReturns)
    ensures var next := Next(s, ReaperReturns);
            Covered(next) && next.history + Owed(next.phase) == s.history + Owed(s.phase)
  {
    var next, id := Next(s, ReaperReturns), s.phase.msg.id;
    forall path ensures next.mounts[path] >= |At(next.active, path)| {
      AtAfterRemoving(s.active, id, path);
    }
  }

  lemma SeenCovers(s: State)
    requires Sound(s) && Covered(s) && Enabled(s, MountSeen) && Cooperative(s, MountSeen)
    ensures var next := Next(s, MountSeen);
            Covered(next) && next.history + Owed(next.phase) == s.history + Owed(s.phase)
  {
    var next, msg := Next(s, MountSeen), s.phase.msg;
    forall path ensures next.mounts[path] >= |At(next.active, path)| {
      AtAfterAdding(s.active, msg.id, Entry(msg.mountPoint, s.phase.pid), path);
    }
  }

  lemma StepCovers(s: State, step: Step)
    requires Sound(s) && Covered(s) && Enabled(s, step) && Cooperative(s, step)
    ensures var next := Next(s, step);
            Covered(next) && next.history + Owed(next.phase) == s.history + Owed(s.phase) + AllDone(Begun([step]))
  {
    assert [step][1..] == [];
    assert s.history + Owed(s.phase) + [] == s.history + Owed(s.phase);
    match step
    case BeginApply(msg, _) =>
      BeginCovers(s, msg);
      assert Begun([step]) == [msg];
      assert [msg][1..] == [];
    case ReaperReturns => ReaperCovers(s);
    case MountSeen => SeenCovers(s);
    case _ =>
  }

  lemma {:induction false} AllDoneConcat(a: seq<Message>, b: seq<Message>)
    ensures AllDone(a + b) == AllDone(a) + AllDone(b)
  {
    if a == [] {
      assert a + b == b;
    } else {
      assert (a + b)[1..] == a[1..] + b;
      AllDoneConcat(a[1..], b);
    }
  }

  lemma {:induction false} CooperationPays(s: State, run: seq<Step>)
    requires Sound(s) && Covered(s) && CooperativeRun(s, run)
    ensures After(s, run).Some?
    ensures var t := After(s, run).value;
            Sound(t) && Covered(t) && t.history + Owed(t.phase) == s.history + Owed(s.phase) + AllDone(Begun(run))
    decreases |run|
  {
    if run != [] {
      var next := Next(s, run[0]);
      StepKeepsSound(s, run[0]);
      StepCovers(s, run[0]);
      CooperationPays(next, run[1..]);
      BegunHead(run, s.history + Owed(s.phase));
    } else {
      assert s.history + Owed(s.phase) + [] == s.history + Owed(s.phase);
    }
  }

  lemma BegunParts(run: seq<Step>)
    requires run != []
    ensures AllDone(Begun(run)) == AllDone(Begun([run[0]])) + AllDone(Begun(run[1..]))
  {
    assert [run[0]][1..] == [];
    assert Begun(run) == Begun([run[0]]) + Begun(run[1..]);
    AllDoneConcat(Begun([run[0]]), Begun(run[1..]));
  }

  lemma Regroup(a: seq<Event>, b: seq<Event>, c: seq<Event>)
    ensures a + (b + c) == a + b + c
  {
  }

  lemma BegunHead(run: seq<Step>, sofar: seq<Event>)
    requires run != []
    ensures sofar + AllDone(Begun(run)) == sofar + AllDone(Begun([run[0]])) + AllDone(Begun(run[1..]))
  {
    BegunParts(run);
    Regroup(sofar, AllDone(Begun([run[0]])), AllDone(Begun(run[1..])));
  }

  lemma InitiallyCovered()
    ensures Sound(INITIAL) && Covered(INITIAL)
  {
    assert forall path :: At(INITIAL.active, path) == {};
  }

  /** In a cooperative run every call succeeds. */
  lemma CooperationSucceeds(run: seq<Step>)
    requires CooperativeRun(INITIAL, run)
    ensures After(INITIAL, run).Some?
    ensures var s := After(INITIAL, run).value;
            Sound(s) && Covered(s) && (s.phase == Idle ==> s.history == AllDone(Begun(run)))
  {
    InitiallyCovered();
    CooperationPays(INITIAL, run);
    var s := After(INITIAL, run).value;
    assert s.history + [] == s.history;
  }

  // Every log can be published that way

  lemma {:induction false} OneMoreStep(s: State, run: seq<Step>, step: Step)
    requires CooperativeRun(s, run) && After(s, run).Some?
    requires Enabled(After(s, run).value, step) && Cooperative(After(s, run).value, step)
    ensures CooperativeRun(s, run + [step]) && After(s, run + [step]) == Some(Next(After(s, run).value, step))
    ensures Begun(run + [step]) == Begun(run) + if step.BeginApply? then [step.msg] else []
    decreases |run|
  {
    AfterOneMore(s, run, step);
    if run == [] {
      assert run + [step] == [step];
      assert [step][1..] == [];
    } else {
      assert (run + [step])[1..] == run[1..] + [step];
      OneMoreStep(Next(s, run[0]), run[1..], step);
    }
  }

  lemma Extend(run: seq<Step>, s: State, step: Step) returns (more: seq<Step>, next: State)
    requires CooperativeRun(INITIAL, run) && After(INITIAL, run) == Some(s)
    requires Enabled(s, step) && Cooperative(s, step)
    ensures CooperativeRun(INITIAL, more) && After(INITIAL, more) == Some(next) && next == Next(s, step)
    ensures Begun(more) == Begun(run) + if step.BeginApply? then [step.msg] else []
    ensures Sound(next) && Covered(next)
  {
    OneMoreStep(INITIAL, run, step);
    more, next := run + [step], Next(s, step);
    CooperationSucceeds(more);
  }

  /** The old mount, if there is one, is taken out. */
  lemma OldMountGoes(run: seq<Step>, s: State, msg: Message) returns (more: seq<Step>, next: State)
    requires CooperativeRun(INITIAL, run) && After(INITIAL, run) == Some(s) && s.phase == Idle
    ensures CooperativeRun(INITIAL, more) && After(INITIAL, more) == Some(next) && Begun(more) == Begun(run) + [msg]
    ensures next.phase == if msg.unmount then Idle else Launching(msg)
  {
    CooperationSucceeds(run);
    more, next := Extend(run, s, BeginApply(msg, true));
    assert Covered(next);
    if next.phase.Stopping? {
      more, next := OldClientGoes(more, next, msg);
    }
  }

  lemma OldClientGoes(run: seq<Step>, s: State, msg: Message) returns (more: seq<Step>, next: State)
    requires CooperativeRun(INITIAL, run) && After(INITIAL, run) == Some(s)
    requires s.phase == Stopping(msg, true) && Sound(s)
    ensures CooperativeRun(INITIAL, more) && After(INITIAL, more) == Some(next) && Begun(more) == Begun(run)
    ensures next.phase == if msg.unmount then Idle else Launching(msg)
  {
    var pid := Awaited(s).value;
    more, next := run, s;
    if s.procs[pid] == Zombie {
      more, next := Extend(run, s, ProcessIsReaped(pid));
    }
    more, next := Extend(more, next, ReaperReturns);
  }

  lemma OneMountMore(s: State, msg: Message)
    requires Covered(s) && s.phase.Waiting? && s.phase.msg == msg
    ensures var next := Next(s, MountAppears(msg.mountPoint));
            Enabled(next, MountSeen) && Cooperative(next, MountSeen)
  {
    assert s.mounts[msg.mountPoint] >= |At(s.active, msg.mountPoint)|;
  }

  lemma NewMountComes(run: seq<Step>, s: State, msg: Message) returns (more: seq<Step>, next: State)
    requires CooperativeRun(INITIAL, run) && After(INITIAL, run) == Some(s) && s.phase == Launching(msg)
    ensures CooperativeRun(INITIAL, more) && After(INITIAL, more) == Some(next) && Begun(more) == Begun(run)
    ensures next.phase == Idle
  {
    var waiting;
    more, waiting := Extend(run, s, Launch(true, true));
    OneMountMore(waiting, msg);
    more, next := Extend(more, waiting, MountAppears(msg.mountPoint));
    more, next := Extend(more, next, MountSeen);
  }

  /** For every publish log there is a cooperative run, and it ends with the lock free. */
  lemma {:induction false} EveryLogCanBePublished(log: seq<Message>) returns (run: seq<Step>, s: State)
    ensures CooperativeRun(INITIAL, run) && After(INITIAL, run) == Some(s) && s.phase == Idle && Begun(run) == log
  {
    if log == [] {
      run, s := [], INITIAL;
    } else {
      var n := |log| - 1;
      run, s := EveryLogCanBePublished(log[..n]);
      run, s := OldMountGoes(run, s, log[n]);
      assert log == log[..n] + [log[n]];
      if !log[n].unmount {
        run, s := NewMountComes(run, s, log[n]);
      }
    }
  }

  predicate Publishes(run: seq<Step>, log: seq<Message>) {
    CooperativeRun(INITIAL, run) && Begun(run) == log
    && After(INITIAL, run).Some? && After(INITIAL, run).value.phase == Idle
  }

  /** A publish log and its compacted form end with the same shares mounted at the same places, whatever the
      interleaving. */
  lemma CompactedRunsAgree(full: seq<Step>, compacted: seq<Step>, log: seq<Message>)
    requires Publishes(full, log) && Publishes(compacted, KeepLast(log))
    ensures View(After(INITIAL, full).value.active) == View(After(INITIAL, compacted).value.active)
  {
    CooperationSucceeds(full);
    CooperationSucceeds(compacted);
    CompactionFolds(map[], log);
    SuccessfulRunsAgree(full, compacted, log, KeepLast(log));
  }

  /** A message lost on the way does no harm if a later one speaks about its id. */
  lemma LostMessageIsHarmless(all: seq<Step>, fewer: seq<Step>, a: seq<Message>, msg: Message, b: seq<Message>)
    requires Publishes(all, a + [msg] + b) && Publishes(fewer, a + b)
    requires exists later :: later in b && later.id == msg.id
    ensures View(After(INITIAL, all).value.active) == View(After(INITIAL, fewer).value.active)
  {
    CooperationSucceeds(all);
    CooperationSucceeds(fewer);
    OneMessageDropped(a, msg, b);
    SuccessfulRunsAgree(all, fewer, a + [msg] + b, a + b);
  }
}
