/** The CubeFS registry: one cfs-client process per mounted share. The thread that holds the registry's
    lock, the clients, the reaper goroutine of each client and the kernel's mount table take steps in any
    order. */
module CubeFS {
  import opened Common

  /** A published share, reduced to what the registry looks at. */
  datatype Message = Message(id: string, mountPoint: string, unmount: bool)

  datatype Proc = Running | Zombie | Reaped

  datatype Entry = Entry(mountPoint: string, pid: nat)

  /** Where the holder of the lock is. */
  datatype Phase =
    | Idle
    | Stopping(msg: Message, detached: bool)
    | Launching(msg: Message)
    | Waiting(msg: Message, pid: nat)
    | Failing(msg: Message, pid: nat)
    | Sweeping
    | SweepStopping(id: string)

  /** How a call ended: as asked, with the old mount kept, or with nothing mounted. */
  datatype Outcome = Done | KeptOld | NotMounted

  datatype Event = Handled(msg: Message, outcome: Outcome) | Swept(sid: string)

  /** Processes are numbered in launch order; logs holds the processes whose log file is open. */
  datatype State = State(
    procs: seq<Proc>,
    logs: set<nat>,
    mounts: multiset<string>,
    active: map<string, Entry>,
    phase: Phase,
    history: seq<Event>)

  datatype Step =
    | ProcessExits(pid: nat)
    | ProcessIsReaped(pid: nat)
    | MountAppears(path: string)
    | MountVanishes(path: string)
    | BeginApply(msg: Message, works: bool)
    | ReaperReturns
    | Launch(started: bool, logged: bool)
    | MountSeen
    | DeadlineFires
    | BeginSweep
    | SweepNext(id: string, works: bool)
    | EndSweep

  const INITIAL := State([], {}, multiset{}, map[], Idle, [])

  /** A kill is harmless if the process is gone already. */
  function Kill(procs: seq<Proc>, pid: nat): (r: seq<Proc>)
    requires pid < |procs|
  {
    if procs[pid] == Running then procs[pid := Zombie] else procs
  }

  /** The process the lock holder has launched and not yet registered. */
  function Flying(phase: Phase): Option<nat> {
    if phase.Waiting? || phase.Failing? then Some(phase.pid) else None
  }

  function Pids(active: map<string, Entry>): set<nat> {
    set id | id in active :: active[id].pid
  }

  /** The process whose end the lock holder waits for. */
  function Awaited(s: State): Option<nat> {
    match s.phase
    case Stopping(msg, _) => if msg.id in s.active then Some(s.active[msg.id].pid) else None
    case SweepStopping(id) => if id in s.active then Some(s.active[id].pid) else None
    case Failing(_, pid) => Some(pid)
    case _ => None
  }

  predicate Enabled(s: State, step: Step) {
    match step
    case ProcessExits(pid) => pid < |s.procs| && s.procs[pid] == Running
    case ProcessIsReaped(pid) => pid < |s.procs| && s.procs[pid] == Zombie
    case MountAppears(_) => true
    case MountVanishes(path) => path in s.mounts
    case BeginApply(msg, _) => s.phase == Idle && (msg.id in s.active ==> s.active[msg.id].pid < |s.procs|)
    case ReaperReturns =>
      Awaited(s).Some? && Awaited(s).value < |s.procs| && s.procs[Awaited(s).value] == Reaped
    case Launch(_, _) => s.phase.Launching?
    case MountSeen => s.phase.Waiting? && s.phase.msg.mountPoint in s.mounts
    case DeadlineFires => s.phase.Waiting? && s.phase.pid < |s.procs|
    case BeginSweep => s.phase == Idle
    case SweepNext(id, _) => s.phase == Sweeping && id in s.active && s.active[id].pid < |s.procs|
    case EndSweep => s.phase == Sweeping && s.active == map[]
  }

  /** The first half of Unmount: detach, then kill. Detaching needs a working helper and a mount. */
  function Detached(s: State, id: string, works: bool): bool
    requires id in s.active
  {
    works && s.active[id].mountPoint in s.mounts
  }

  function DetachAndKill(s: State, id: string, works: bool): State
    requires id in s.active && s.active[id].pid < |s.procs|
  {
    s.(mounts := if Detached(s, id, works) then s.mounts - multiset{s.active[id].mountPoint} else s.mounts,
       procs := Kill(s.procs, s.active[id].pid))
  }

  /** The call is over; what it came to is written down. */
  function Finish(s: State, msg: Message, outcome: Outcome): State {
    s.(phase := Idle, history := s.history + [Handled(msg, outcome)])
  }

  /** After the old mount is gone: stop here, or go on to mount. */
  function Proceed(s: State, msg: Message): State {
    if msg.unmount then Finish(s, msg, Done) else s.(phase := Launching(msg))
  }

  /** The exited channel is closed: the log file is closed, and the call goes on. */
  function AfterReaper(s: State): State
    requires Awaited(s).Some?
  {
    var t := s.(logs := s.logs - {Awaited(s).value});
    match s.phase
    case Stopping(msg, detached) =>
      if detached then Proceed(t.(active := t.active - {msg.id}), msg) else Finish(t, msg, KeptOld)
    case SweepStopping(id) =>
      t.(active := t.active - {id}, phase := Sweeping, history := t.history + [Swept(id)])
    case Failing(msg, _) => Finish(t, msg, NotMounted)
  }

  function Launched(s: State, msg: Message, started: bool, logged: bool): State {
    if !started then Finish(s, msg, NotMounted)
    else
      s.(procs := s.procs + [Running],
         logs := if logged then s.logs + {|s.procs|} else s.logs,
         phase := Waiting(msg, |s.procs|))
  }

  function Next(s: State, step: Step): State
    requires Enabled(s, step)
  {
    match step
    case ProcessExits(pid) => s.(procs := s.procs[pid := Zombie])
    case ProcessIsReaped(pid) => s.(procs := s.procs[pid := Reaped])
    case MountAppears(path) => s.(mounts := s.mounts + multiset{path})
    case MountVanishes(path) => s.(mounts := s.mounts - multiset{path})
    case BeginApply(msg, works) =>
      if msg.id in s.active then
        DetachAndKill(s, msg.id, works).(phase := Stopping(msg, Detached(s, msg.id, works)))
      else Proceed(s, msg)
    case ReaperReturns => AfterReaper(s)
    case Launch(started, logged) => Launched(s, s.phase.msg, started, logged)
    case MountSeen =>
      Finish(s.(active := s.active[s.phase.msg.id := Entry(s.phase.msg.mountPoint, s.phase.pid)]), s.phase.msg, Done)
    case DeadlineFires => s.(procs := Kill(s.procs, s.phase.pid), phase := Failing(s.phase.msg, s.phase.pid))
    case BeginSweep => s.(phase := Sweeping)
    case SweepNext(id, works) => DetachAndKill(s, id, works).(phase := SweepStopping(id))
    case EndSweep => s.(phase := Idle)
  }

  /** The state after a run; None if some step was not possible. */
  function After(s: State, run: seq<Step>): Option<State>
    decreases |run|
  {
    if run == [] then Some(s)
    else if !Enabled(s, run[0]) then None
    else After(Next(s, run[0]), run[1..])
  }

  lemma {:induction false} AfterOneMore(s: State, run: seq<Step>, step: Step)
    ensures var before := After(s, run);
            After(s, run + [step]) ==
            if before.Some? && Enabled(before.value, step) then Some(Next(before.value, step)) else None
    decreases |run|
  {
    if run == [] {
      assert run + [step] == [step];
      assert [step][1..] == [];
    } else {
      assert (run + [step])[1..] == run[1..] + [step];
      if Enabled(s, run[0]) {
        AfterOneMore(Next(s, run[0]), run[1..], step);
      }
    }
  }

  // Ownership

  /** Every process is fully reaped unless it has exactly one owner: an entry or the lock holder.
      An open log file has an owner, too. */
  predicate Owned(active: map<string, Entry>, procs: seq<Proc>, logs: set<nat>, flying: Option<nat>) {
    && (forall id | id in active :: active[id].pid < |procs|)
    && (forall id, jd | id in active && jd in active && active[id].pid == active[jd].pid :: id == jd)
    && (flying.Some? ==> flying.value < |procs| && flying.value !in Pids(active))
    && (forall p: nat | p < |procs| :: procs[p] == Reaped || p in Pids(active) || flying == Some(p))
    && (forall p | p in logs :: p in Pids(active) || flying == Some(p))
  }

  /** The lock holder only ever waits for a process that is on its way out, and mounts only an id that has
      no entry. */
  predicate HolderIsSound(s: State) {
    match s.phase
    case Stopping(msg, _) => msg.id in s.active && Ending(s)
    case SweepStopping(id) => id in s.active && Ending(s)
    case Launching(msg) => msg.id !in s.active && !msg.unmount
    case Waiting(msg, _) => msg.id !in s.active && !msg.unmount
    case Failing(msg, _) => msg.id !in s.active && !msg.unmount && Ending(s)
    case _ => true
  }

  predicate Ending(s: State) {
    Awaited(s).Some? && Awaited(s).value < |s.procs| && s.procs[Awaited(s).value] != Running
  }

  predicate Sound(s: State) {
    Owned(s.active, s.procs, s.logs, Flying(s.phase)) && HolderIsSound(s)
  }

  /** A process may only move towards its end. */
  lemma ProcsMayEnd(s: State, procs: seq<Proc>)
    requires Sound(s) && |procs| == |s.procs|
    requires forall p: nat | p < |procs| :: procs[p] == s.procs[p] || procs[p] != Running
    requires forall p: nat | p < |procs| && s.procs[p] == Reaped :: procs[p] == Reaped
    ensures Sound(s.(procs := procs))
  {
  }

  /** An entry whose process is reaped and whose log is closed may go. */
  lemma EntryMayGo(active: map<string, Entry>, procs: seq<Proc>, logs: set<nat>, id: string)
    requires Owned(active, procs, logs, None) && id in active && procs[active[id].pid] == Reaped
    ensures Owned(active - {id}, procs, logs - {active[id].pid}, None)
  {
    var rest := active - {id};
    forall p | p in Pids(active) && p != active[id].pid ensures p in Pids(rest) {
      var jd :| jd in active && active[jd].pid == p;
      assert jd in rest && rest[jd].pid == p;
    }
  }

  /** A launched process may become an entry. */
  lemma EntryMayCome(active: map<string, Entry>, procs: seq<Proc>, logs: set<nat>, id: string, entry: Entry)
    requires Owned(active, procs, logs, Some(entry.pid)) && id !in active
    ensures Owned(active[id := entry], procs, logs, None)
  {
    var more := active[id := entry];
    assert more[id].pid == entry.pid;
    forall p | p in Pids(active) ensures p in Pids(more) {
      var jd :| jd in active && active[jd].pid == p;
      assert jd in more && more[jd].pid == p;
    }
    forall jd | jd in active ensures active[jd].pid != entry.pid {
      assert active[jd].pid in Pids(active);
    }
  }

  lemma LaunchKeepsOwned(active: map<string, Entry>, procs: seq<Proc>, logs: set<nat>, logged: bool)
    requires Owned(active, procs, logs, None)
    ensures Owned(active, procs + [Running], if logged then logs + {|procs|} else logs, Some(|procs|))
  {
    forall p | p in Pids(active) ensures p < |procs| {
      var id :| id in active && active[id].pid == p;
    }
  }

  lemma ReaperKeepsSound(s: State)
    requires Sound(s) && Enabled(s, ReaperReturns)
    ensures Sound(AfterReaper(s))
  {
    match s.phase
    case Stopping(msg, detached) => EntryMayGo(s.active, s.procs, s.logs, msg.id);
    case SweepStopping(id) => EntryMayGo(s.active, s.procs, s.logs, id);
    case Failing(_, _) =>
  }

  /** The steps of the clients and the kernel. */
  lemma WorldKeepsSound(s: State, step: Step)
    requires Sound(s) && Enabled(s, step)
    requires step.ProcessExits? || step.ProcessIsReaped? || step.MountAppears? || step.MountVanishes?
    ensures Sound(Next(s, step))
  {
    match step
    case ProcessExits(pid) => ProcsMayEnd(s, s.procs[pid := Zombie]);
    case ProcessIsReaped(pid) => ProcsMayEnd(s, s.procs[pid := Reaped]);
    case _ =>
  }

  lemma StepKeepsSound(s: State, step: Step)
    requires Sound(s) && Enabled(s, step)
    ensures Sound(Next(s, step))
  {
    match step
    case BeginApply(msg, _) =>
      if msg.id in s.active {
        ProcsMayEnd(s, Kill(s.procs, s.active[msg.id].pid));
      }
    case ReaperReturns => ReaperKeepsSound(s);
    case Launch(started, logged) => LaunchKeepsOwned(s.active, s.procs, s.logs, logged);
    case MountSeen =>
      EntryMayCome(s.active, s.procs, s.logs, s.phase.msg.id, Entry(s.phase.msg.mountPoint, s.phase.pid));
    case DeadlineFires => ProcsMayEnd(s, Kill(s.procs, s.phase.pid));
    case SweepNext(id, _) => ProcsMayEnd(s, Kill(s.procs, s.active[id].pid));
    case BeginSweep =>
    case EndSweep =>
    case _ => WorldKeepsSound(s, step);
  }

  lemma {:induction false} RunKeepsSound(s: State, run: seq<Step>)
    requires Sound(s) && After(s, run).Some?
    ensures Sound(After(s, run).value)
    decreases |run|
  {
    if run != [] {
      StepKeepsSound(s, run[0]);
      RunKeepsSound(Next(s, run[0]), run[1..]);
    }
  }

  /** The number of entries that own a process. */
  function Owners(active: map<string, Entry>, p: nat): set<string> {
    set id | id in active && active[id].pid == p
  }

  /** Whenever the lock is free, after any run with any failures: a process that still runs or still waits
      to be reaped belongs to exactly one entry, and so does an open log file. */
  lemma EveryClientHasOneOwner(run: seq<Step>, p: nat)
    requires After(INITIAL, run).Some?
    ensures var s := After(INITIAL, run).value;
            s.phase == Idle ==>
              && |Owners(s.active, p)| <= 1
              && (p < |s.procs| && s.procs[p] != Reaped ==> |Owners(s.active, p)| == 1)
              && (p in s.logs ==> |Owners(s.active, p)| == 1)
  {
    RunKeepsSound(INITIAL, run);
    var s := After(INITIAL, run).value;
    var owners := Owners(s.active, p);
    if p in Pids(s.active) {
      var id :| id in s.active && s.active[id].pid == p;
      assert owners == {id};
    } else {
      assert forall id | id in s.active :: s.active[id].pid in Pids(s.active);
      assert owners == {};
    }
  }

  /** Unmount and a timed-out Mount never block for ever: the awaited client was killed, so either its
      reaper can return now or it can once the kernel has handed over the exit. */
  lemma HolderIsNeverStuck(run: seq<Step>)
    requires After(INITIAL, run).Some?
    ensures var s := After(INITIAL, run).value;
            s.phase.Stopping? || s.phase.Failing? || s.phase.SweepStopping? ==>
              Awaited(s).Some?
              && (Enabled(s, ReaperReturns)
                  || (Enabled(s, ProcessIsReaped(Awaited(s).value))
                      && Enabled(Next(s, ProcessIsReaped(Awaited(s).value)), ReaperReturns)))
  {
    RunKeepsSound(INITIAL, run);
  }

  // Reaping

  function ReapCount(run: seq<Step>, p: nat): nat {
    if run == [] then 0 else (if run[0] == ProcessIsReaped(p) then 1 else 0) + ReapCount(run[1..], p)
  }

  predicate IsReaped(s: State, p: nat) {
    p < |s.procs| && s.procs[p] == Reaped
  }

  lemma OnlyReapingReaps(s: State, step: Step, p: nat)
    requires Enabled(s, step)
    ensures IsReaped(Next(s, step), p) <==> IsReaped(s, p) || step == ProcessIsReaped(p)
    ensures step == ProcessIsReaped(p) ==> !IsReaped(s, p)
  {
  }

  lemma {:induction false} ReapsCount(s: State, run: seq<Step>, p: nat)
    requires After(s, run).Some?
    ensures ReapCount(run, p) == (if IsReaped(After(s, run).value, p) then 1 else 0) - if IsReaped(s, p) then 1 else 0
    decreases |run|
  {
    if run != [] {
      OnlyReapingReaps(s, run[0], p);
      ReapsCount(Next(s, run[0]), run[1..], p);
    }
  }

  /** No process is reaped twice, and once nothing is mounted and the lock is free, every process ever
      launched has been reaped exactly once and no log file is open. */
  lemma EveryClientIsReapedOnce(run: seq<Step>, p: nat)
    requires After(INITIAL, run).Some?
    ensures var s := After(INITIAL, run).value;
            ReapCount(run, p) <= 1
            && (s.phase == Idle && s.active == map[] ==> s.logs == {} && (p < |s.procs| ==> ReapCount(run, p) == 1))
  {
    RunKeepsSound(INITIAL, run);
    ReapsCount(INITIAL, run, p);
  }
}
