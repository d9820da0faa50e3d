/** How a call of the registry ends, whatever the clients, the kernel and the helpers do meanwhile. */
module CubeFSCalls {
  import opened Common
  import opened CubeFS
  import opened CubeFSLog
  import Cooperation = CubeFSCooperation

  /** The holder of the lock takes up nothing new. */
  predicate NoNewCall(run: seq<Step>) {
    forall i | 0 <= i < |run| :: !run[i].BeginApply? && !run[i].BeginSweep?
  }

  /** The client does not start, or its mount does not show in time. */
  predicate Fails(run: seq<Step>) {
    exists i | 0 <= i < |run| :: run[i].DeadlineFires? || (run[i].Launch? && !run[i].started)
  }

  lemma FailsHead(run: seq<Step>)
    requires run != []
    ensures Fails(run) <==> run[0].DeadlineFires? || (run[0].Launch? && !run[0].started) || Fails(run[1..])
  {
    if Fails(run) {
      var i :| 0 <= i < |run| && (run[i].DeadlineFires? || (run[i].Launch? && !run[i].started));
      assert i > 0 ==> run[1..][i - 1] == run[i];
    }
    if Fails(run[1..]) {
      var i :| 0 <= i < |run| - 1 && (run[1..][i].DeadlineFires? || (run[1..][i].Launch? && !run[1..][i].started));
      assert run[i + 1] == run[1..][i];
    }
  }

  /** What a call still owes to the log, given the steps to come. */
  function Owed(phase: Phase, run: seq<Step>): seq<Event> {
    match phase
    case Stopping(msg, detached) => [Handled(msg, if detached then Ending(msg, run) else KeptOld)]
    case Launching(msg) => [Handled(msg, Ending(msg, run))]
    case Waiting(msg, _) => [Handled(msg, Ending(msg, run))]
    case Failing(msg, _) => [Handled(msg, NotMounted)]
    case _ => []
  }

  function Ending(msg: Message, run: seq<Step>): Outcome {
    if msg.unmount || !Fails(run) then Done else NotMounted
  }

  predicate Sweeping(phase: Phase) {
    phase.Sweeping? || phase.SweepStopping?
  }

  /** One step pays what it finishes. */
  lemma StepPays(s: State, step: Step, rest: seq<Step>)
    requires Sound(s) && Enabled(s, step) && !step.BeginApply? && !step.BeginSweep? && !Sweeping(s.phase)
    requires Next(s, step).phase == Idle ==> !Fails(rest)
    ensures var next := Next(s, step);
            !Sweeping(next.phase)
            && next.history + Owed(next.phase, rest) == s.history + Owed(s.phase, [step] + rest)
  {
    FailsHead([step] + rest);
    assert ([step] + rest)[1..] == rest;
  }

  lemma {:induction false} IdleCannotFail(s: State, run: seq<Step>)
    requires s.phase == Idle && NoNewCall(run) && After(s, run).Some?
    ensures !Fails(run)
    decreases |run|
  {
    if run != [] {
      FailsHead(run);
      IdleCannotFail(Next(s, run[0]), run[1..]);
    }
  }

  lemma {:induction false} RunPays(s: State, run: seq<Step>)
    requires Sound(s) && NoNewCall(run) && After(s, run).Some? && !Sweeping(s.phase)
    ensures var t := After(s, run).value;
            !Sweeping(t.phase) && t.history + Owed(t.phase, []) == s.history + Owed(s.phase, run)
    decreases |run|
  {
    if run != [] {
      var next := Next(s, run[0]);
      if next.phase == Idle {
        IdleCannotFail(next, run[1..]);
      }
      assert run == [run[0]] + run[1..];
      StepKeepsSound(s, run[0]);
      StepPays(s, run[0], run[1..]);
      RunPays(next, run[1..]);
    }
  }

  /** A call cannot take the old mount away: there is one, and no helper works or no mount is at its path. */
  predicate Blocked(s: State, msg: Message, works: bool) {
    msg.id in s.active && !(works && s.active[msg.id].mountPoint in s.mounts)
  }

  /** The outcome of a call, once the lock is free again and whatever happened meanwhile: the old mount is
      kept exactly if it is blocked when the call begins, and nothing is mounted exactly if the new client
      then fails. In particular a repeated message mounts its share again exactly if the old mount is still
      there, a helper works, and the new client does not fail. */
  lemma CallEndsAs(s: State, msg: Message, works: bool, run: seq<Step>)
    requires Sound(s) && s.phase == Idle && Enabled(s, BeginApply(msg, works)) && NoNewCall(run)
    requires var t := After(Next(s, BeginApply(msg, works)), run); t.Some? && t.value.phase == Idle
    ensures var t := After(Next(s, BeginApply(msg, works)), run).value;
            t.history == s.history + [Handled(msg,
                           if msg.id in s.active && !(works && s.active[msg.id].mountPoint in s.mounts) then KeptOld
                           else if msg.unmount || !Fails(run) then Done else NotMounted)]
  {
    var begun := Next(s, BeginApply(msg, works));
    StepKeepsSound(s, BeginApply(msg, works));
    RunPays(begun, run);
    if begun.phase == Idle {
      IdleCannotFail(begun, run);
    }
    var t := After(begun, run).value;
    assert t.history + [] == t.history;
    assert begun.history + [] == begun.history;
  }

  /** Whoever begins a call, sweeps an entry or gives up waiting detaches at most the mount of that entry, which
      needs a working helper and a mount, and kills its client either way. */
  lemma DetachInWords(s: State, id: string, step: Step, works: bool)
    requires Enabled(s, step) && id in s.active && s.active[id].pid < |s.procs|
    requires step == SweepNext(id, works) || (step.BeginApply? && step.msg.id == id && step.works == works)
    ensures var next, path := Next(s, step), s.active[id].mountPoint;
            && next.active == s.active && next.history == s.history && next.logs == s.logs
            && next.mounts == (if works && path in s.mounts then s.mounts - multiset{path} else s.mounts)
            && next.procs[s.active[id].pid] != Running
            && (forall p: nat | p < |s.procs| && p != s.active[id].pid :: next.procs[p] == s.procs[p])
  {}

  /** What each outcome means at the moment it is written down. A mount is done only with something mounted at
      its path and a client of its own; a call that mounts nothing leaves no entry, and its client, if it got
      that far, reaped with its log closed; a kept entry is as it was, its client gone. */
  lemma OutcomeInWords(s: State, step: Step, msg: Message, outcome: Outcome)
    requires Sound(s) && Enabled(s, step) && Next(s, step).history == s.history + [Handled(msg, outcome)]
    ensures var next := Next(s, step);
            && next.phase == Idle
            && (outcome == Done && !msg.unmount ==>
                  && step == MountSeen && msg.mountPoint in next.mounts
                  && next.active == s.active[msg.id := Entry(msg.mountPoint, s.phase.pid)])
            && (outcome == Done && msg.unmount ==> next.active == s.active - {msg.id})
            && (outcome == NotMounted ==>
                  && !msg.unmount && msg.id !in next.active && next.active == s.active
                  && (s.phase.Failing? ==> next.procs[s.phase.pid] == Reaped && s.phase.pid !in next.logs))
            && (outcome == KeptOld ==>
                  && msg.id in s.active && next.active == s.active
                  && next.procs[s.active[msg.id].pid] == Reaped && s.active[msg.id].pid !in next.logs)
  {
    assert Next(s, step).history[|s.history|] == Handled(msg, outcome);
    if step.BeginApply? {
      assert msg.id !in s.active;
      assert s.active - {msg.id} == s.active;
    }
  }

  /** An id whose mount has vanished from its path, the registry not just taking it out. */
  predicate Stuck(s: State, id: string, entry: Entry) {
    && id in s.active && s.active[id] == entry && entry.mountPoint !in s.mounts
    && !(s.phase.Stopping? && s.phase.msg.id == id && s.phase.detached)
    && s.phase != SweepStopping(id)
  }

  /** Nobody mounts anything at the path, and the registry is not torn down. */
  predicate LeavesAlone(step: Step, id: string, path: string) {
    step != MountAppears(path) && !(step.SweepNext? && step.id == id)
  }

  /** What the log says of an id from some point on is only that its old mount was kept. */
  predicate OnlyKept(history: seq<Event>, id: string) {
    forall i | 0 <= i < |history| && EventId(history[i]) == id ::
      history[i].Handled? && history[i].outcome == KeptOld
  }

  lemma ReaperKeepsStuck(s: State, id: string, entry: Entry)
    requires Sound(s) && Enabled(s, ReaperReturns) && Stuck(s, id, entry)
    ensures var next := AfterReaper(s);
            Stuck(next, id, entry) && s.history <= next.history && OnlyKept(next.history[|s.history|..], id)
  {
  }

  lemma StepKeepsStuck(s: State, step: Step, id: string, entry: Entry)
    requires Sound(s) && Enabled(s, step) && Stuck(s, id, entry) && LeavesAlone(step, id, entry.mountPoint)
    ensures Stuck(Next(s, step), id, entry)
    ensures s.history <= Next(s, step).history && OnlyKept(Next(s, step).history[|s.history|..], id)
  {
    if step.ReaperReturns? {
      ReaperKeepsStuck(s, id, entry);
    }
  }

  /** An id whose mount has vanished stays as it is, and every call for it is blocked, for as long as nothing
      is mounted at its path again: repeating the message does not help, and neither does unmounting. */
  lemma {:induction false} VanishedMountBlocks(s: State, run: seq<Step>, id: string, entry: Entry)
    requires Sound(s) && Stuck(s, id, entry) && After(s, run).Some?
    requires forall i | 0 <= i < |run| :: LeavesAlone(run[i], id, entry.mountPoint)
    ensures var t := After(s, run).value;
            Stuck(t, id, entry) && s.history <= t.history && OnlyKept(t.history[|s.history|..], id)
    decreases |run|
  {
    if run != [] {
      var next := Next(s, run[0]);
      StepKeepsStuck(s, run[0], id, entry);
      StepKeepsSound(s, run[0]);
      VanishedMountBlocks(next, run[1..], id, entry);
      var t := After(s, run).value;
      assert t.history[|s.history|..] == next.history[|s.history|..] + t.history[|next.history|..];
    }
  }

  lemma {:induction false} AllVanish(run: seq<Step>, s: State, path: string) returns (more: seq<Step>, next: State)
    requires After(INITIAL, run) == Some(s)
    ensures After(INITIAL, more) == Some(next) && next == s.(mounts := s.mounts[path := 0])
    decreases s.mounts[path]
  {
    if path in s.mounts {
      AfterOneMore(INITIAL, run, MountVanishes(path));
      more, next := AllVanish(run + [MountVanishes(path)], Next(s, MountVanishes(path)), path);
    } else {
      assert s.mounts[path := 0] == s.mounts;
      more, next := run, s;
    }
  }

  /** Every message that mounts can lead there: its share is mounted, and then the mount vanishes. */
  lemma EveryShareCanGetStuck(msg: Message) returns (run: seq<Step>, s: State)
    requires !msg.unmount
    ensures After(INITIAL, run) == Some(s) && s.phase == Idle && s.history == [Handled(msg, Done)]
    ensures msg.id in s.active && s.active[msg.id].mountPoint == msg.mountPoint && Stuck(s, msg.id, s.active[msg.id])
  {
    var mounted;
    run, mounted := Cooperation.EveryLogCanBePublished([msg]);
    Cooperation.CooperationSucceeds(run);
    assert AllDone([msg]) == [Handled(msg, Done)];
    RegistryIsItsLog(run, msg.id);
    assert LastSettling(mounted.history, msg.id) == Some(0);
    assert msg.id in View(mounted.active);
    run, s := AllVanish(run, mounted, msg.mountPoint);
  }
}
