/** The supervisor as a protocol: every thread's atomic steps over the shared maps, the reaper's
    channel and the kernel's processes, in any interleaving. */
module Lifecycle {
  import opened Common
  import opened PodSpec

  const RESTART_ON_FAILURE := "on-failure"
  const RESTART_ALWAYS := "always"

  datatype ExitStatus = ExitStatus(code: int, signaled: bool)
  {
    predicate Failing() {
      code != 0 || signaled
    }
  }

  /** A zombie collection event. The serial number tells processes with the same pid apart; nothing
      the supervisor does depends on it. */
  datatype Reaped = Reaped(pid: int, status: ExitStatus, serial: nat)

  datatype ContainerState = ContainerState(restart: string, starts: nat, lastExit: Option<Reaped>, pid: int,
                                           stopped: bool, done: bool)

  /** What the mutex protects. */
  datatype Shared = Shared(states: map<string, ContainerState>, pidIndex: map<int, string>)
  {
    function Inserted(c: Container): Shared {
      this.(states := states[c.id := ContainerState(c.restart, 0, None, 0, false, false)])
    }

    function Registered(id: string, newPid: int): Shared
      requires id in states
    {
      var st := states[id];
      Shared(states[id := st.(pid := newPid, starts := st.starts + 1)],
             if newPid > 0 then pidIndex[newPid := id] else pidIndex)
    }

    function Exited(ev: Reaped): Shared
      requires ev.pid in pidIndex && pidIndex[ev.pid] in states
    {
      var id := pidIndex[ev.pid];
      Shared(states[id := states[id].(lastExit := Some(ev))], pidIndex - {ev.pid})
    }

    function Closed(id: string): Shared
      requires id in states
    {
      this.(states := states[id := states[id].(done := true)])
    }

    function Swept(): Shared {
      this.(states := map id | id in states :: states[id].(stopped := true))
    }

    predicate AllExited() {
      forall id | id in states :: states[id].lastExit.Some?
    }
  }

  predicate ShouldRestart(st: ContainerState, ev: Reaped) {
    && !st.stopped
    && (st.restart == RESTART_ALWAYS || (st.restart == RESTART_ON_FAILURE && ev.status.Failing()))
  }

  /** How far startOne has got; the number is the serial of the process it created. */
  datatype StartPc = Creating | Starting(serial: nat) | Registering(serial: nat)

  datatype RunResult = RunOk | RunStartFailed | RunCancelled

  datatype RunPc = Looping(i: nat) | RunStarting(i: nat, pc: StartPc) | Waiting(i: nat) | Returned(result: RunResult)

  datatype ConsumerPc =
    | NotRunning
    | Receiving
    | Deciding(id: string, ev: Reaped)
    | Restarting(id: string, pc: StartPc)
    | Closing(id: string)
    | Ended

  datatype StopPc = NotCalled | Polling | StopReturned(early: bool)

  datatype Phase = Alive | Zombie(status: ExitStatus) | Collected

  /** A process and the container it was started for, once the runtime has started it. */
  datatype Process = Process(pid: int, phase: Phase, owner: Option<string>)

  datatype Handled = Handled(id: string, serial: nat, failing: bool)

  const CHANNEL_SIZE := 64

  /** The whole system. The last five fields are history: no step reads them. */
  datatype State = State(
    shared: Shared, run: RunPc, consumer: ConsumerPc, stop: StopPc, cancelled: bool,
    hand: Option<Reaped>, channel: seq<Reaped>, closed: bool, procs: seq<Process>,
    started: seq<string>, handled: seq<Handled>, lost: seq<string>, tracked: map<int, nat>, dropped: set<nat>)

  datatype Config = Config(containers: seq<Container>, bundles: set<string>)

  function Initial(): State {
    State(Shared(map[], map[]), Looping(0), NotRunning, NotCalled, false, None, [], false, [], [], [], [], map[], {})
  }

  /** The two threads that run startOne. */
  datatype Thread = Runner | Consumer

  datatype Step =
    | RunBegins
    | BundleMissing(t: Thread)
    | CreateFails(t: Thread)
    | CreateSucceeds(t: Thread, pid: int)
    | StartFails(t: Thread)
    | StartSucceeds(t: Thread)
    | Registers(t: Thread, pid: int)
    | ConsumerSpawns
    | RunSeesDone
    | RunSeesCancel
    | Receives
    | ChannelEnds
    | Decides
    | ClosesDone
    | StopSweeps
    | StopSeesAllExited
    | DeadlineFires
    | Cancels
    | OtherProcessStarts(pid: int)
    | ProcessExits(serial: nat, status: ExitStatus)
    | ReaperCollects(serial: nat)
    | ReaperPushes
    | ReaperCloses

  /** The position of a thread inside startOne, if it is there. */
  function StartingAt(s: State, t: Thread): Option<StartPc> {
    match t
    case Runner => if s.run.RunStarting? then Some(s.run.pc) else None
    case Consumer => if s.consumer.Restarting? then Some(s.consumer.pc) else None
  }

  predicate AtStart(s: State, t: Thread) {
    StartingAt(s, t).Some?
  }

  predicate RunInBounds(cfg: Config, s: State) {
    && (s.run.Looping? || s.run.Waiting? ==> s.run.i <= |cfg.containers|)
    && (s.run.RunStarting? ==> s.run.i < |cfg.containers|)
  }

  /** The container a thread is starting. */
  function StartId(cfg: Config, s: State, t: Thread): string
    requires RunInBounds(cfg, s) && AtStart(s, t)
  {
    if t.Runner? then cfg.containers[s.run.i].id else s.consumer.id
  }

  function MovedTo(s: State, t: Thread, pc: StartPc): State
    requires AtStart(s, t)
  {
    if t.Runner? then s.(run := s.run.(pc := pc)) else s.(consumer := s.consumer.(pc := pc))
  }

  /** startOne returns an error: Run gives up, the consumer closes the container's done. */
  function StartFailed(s: State, t: Thread): State
    requires AtStart(s, t)
  {
    if t.Runner? then s.(run := Returned(RunStartFailed)) else s.(consumer := Closing(s.consumer.id))
  }

  /** startOne returns without error. */
  function StartDone(s: State, t: Thread): State
    requires AtStart(s, t)
  {
    if t.Runner? then s.(run := Looping(s.run.i + 1)) else s.(consumer := Receiving)
  }

  /** The kernel never gives out the pid of a process that is not collected yet. */
  predicate PidFree(s: State, pid: int) {
    pid > 0 && forall k | 0 <= k < |s.procs| :: s.procs[k].phase.Collected? || s.procs[k].pid != pid
  }

  predicate CanBegin(cfg: Config, s: State) {
    s.run.Looping? && s.run.i < |cfg.containers|
  }

  /** Run takes up the next container. */
  function Begun(cfg: Config, s: State): State
    requires CanBegin(cfg, s)
  {
    s.(shared := s.shared.Inserted(cfg.containers[s.run.i]), run := RunStarting(s.run.i, Creating))
  }

  predicate CanCreate(cfg: Config, s: State, t: Thread)
    requires RunInBounds(cfg, s)
  {
    StartingAt(s, t) == Some(Creating) && StartId(cfg, s, t) in cfg.bundles
  }

  /** The runtime has created the container's process. */
  function Created(s: State, t: Thread, pid: int): State
    requires AtStart(s, t)
  {
    MovedTo(s, t, Starting(|s.procs|)).(procs := s.procs + [Process(pid, Alive, None)])
  }

  predicate CanStart(s: State, t: Thread) {
    AtStart(s, t) && StartingAt(s, t).value.Starting? && StartingAt(s, t).value.serial < |s.procs|
  }

  /** The runtime has started it. */
  function StartedOk(cfg: Config, s: State, t: Thread): State
    requires RunInBounds(cfg, s) && CanStart(s, t)
  {
    var k := StartingAt(s, t).value.serial;
    MovedTo(s, t, Registering(k)).(procs := s.procs[k := s.procs[k].(owner := Some(StartId(cfg, s, t)))])
  }

  predicate CanRegister(cfg: Config, s: State, t: Thread) {
    RunInBounds(cfg, s) && AtStart(s, t) && StartingAt(s, t).value.Registering? && StartId(cfg, s, t) in s.shared.states
  }

  /** Who loses track of a process when a pid is registered: a container whose entry is overwritten,
      or the container itself when the runtime reported no pid. */
  function LostBy(s: State, id: string, pid: int): seq<string> {
    if pid <= 0 then [id] else if pid in s.shared.pidIndex then [s.shared.pidIndex[pid]] else []
  }

  /** The pid the runtime reports is registered, and startOne returns. */
  function RegisteredBy(cfg: Config, s: State, t: Thread, pid: int): State
    requires CanRegister(cfg, s, t)
  {
    var id := StartId(cfg, s, t);
    StartDone(s, t).(
      shared := s.shared.Registered(id, pid),
      started := s.started + [id],
      lost := s.lost + LostBy(s, id, pid),
      tracked := if pid > 0 then s.tracked[pid := StartingAt(s, t).value.serial] else s.tracked)
  }

  predicate CanReceive(s: State) {
    && s.consumer.Receiving? && s.channel != []
    && (s.channel[0].pid in s.shared.pidIndex ==> s.shared.pidIndex[s.channel[0].pid] in s.shared.states)
  }

  /** The consumer takes an event: it ignores an unknown pid, and else records the container's exit. */
  function Received(s: State): State
    requires CanReceive(s)
  {
    var ev := s.channel[0];
    if ev.pid !in s.shared.pidIndex then s.(channel := s.channel[1..])
    else
      var id := s.shared.pidIndex[ev.pid];
      s.(channel := s.channel[1..], shared := s.shared.Exited(ev), consumer := Deciding(id, ev),
         handled := s.handled + [Handled(id, ev.serial, ev.status.Failing())],
         tracked := s.tracked - {ev.pid})
  }

  /** The consumer applies the restart policy. */
  function Judged(cfg: Config, s: State): State
    requires s.consumer.Deciding? && s.consumer.id in s.shared.states
  {
    var id := s.consumer.id;
    if ShouldRestart(s.shared.states[id], s.consumer.ev) && Declared(cfg.containers, id)
    then s.(consumer := Restarting(id, Creating))
    else s.(consumer := Closing(id))
  }

  function DoneClosed(s: State): State
    requires s.consumer.Closing? && s.consumer.id in s.shared.states
  {
    s.(shared := s.shared.Closed(s.consumer.id), consumer := Receiving)
  }

  function Exited(s: State, k: nat, status: ExitStatus): State
    requires k < |s.procs|
  {
    s.(procs := s.procs[k := s.procs[k].(phase := Zombie(status))])
  }

  /** The reaper waits for one zombie, which frees its pid. */
  function CollectedBy(s: State, k: nat): State
    requires k < |s.procs| && s.procs[k].phase.Zombie?
  {
    var p := s.procs[k];
    s.(procs := s.procs[k := p.(phase := Collected)], hand := Some(Reaped(p.pid, p.phase.status, k)))
  }

  /** It then offers the event to the channel, and drops it if there is no room. */
  function Pushed(s: State): State
    requires s.hand.Some?
  {
    if |s.channel| < CHANNEL_SIZE then s.(channel := s.channel + [s.hand.value], hand := None)
    else s.(dropped := s.dropped + {s.hand.value.serial}, hand := None)
  }

  predicate Enabled(cfg: Config, s: State, step: Step) {
    && RunInBounds(cfg, s)
    && match step
       case RunBegins => CanBegin(cfg, s)
       case BundleMissing(t) => StartingAt(s, t) == Some(Creating) && StartId(cfg, s, t) !in cfg.bundles
       case CreateFails(t) => CanCreate(cfg, s, t)
       case CreateSucceeds(t, pid) => CanCreate(cfg, s, t) && PidFree(s, pid)
       case StartFails(t) => AtStart(s, t) && StartingAt(s, t).value.Starting?
       case StartSucceeds(t) => CanStart(s, t)
       case Registers(t, pid) => CanRegister(cfg, s, t)
       case ConsumerSpawns => s.run == Looping(|cfg.containers|)
       case RunSeesDone =>
         && s.run.Waiting? && s.run.i < |cfg.containers|
         && cfg.containers[s.run.i].id in s.shared.states && s.shared.states[cfg.containers[s.run.i].id].done
       case RunSeesCancel => s.run.Waiting? && s.run.i < |cfg.containers| && s.cancelled
       case Receives => CanReceive(s)
       case ChannelEnds => s.consumer.Receiving? && s.channel == [] && s.closed
       case Decides => s.consumer.Deciding? && s.consumer.id in s.shared.states
       case ClosesDone => s.consumer.Closing? && s.consumer.id in s.shared.states
       case StopSweeps => s.stop.NotCalled?
       case StopSeesAllExited => s.stop.Polling? && s.shared.AllExited()
       case DeadlineFires => s.stop.Polling?
       case Cancels => true
       case OtherProcessStarts(pid) => PidFree(s, pid)
       case ProcessExits(k, status) => k < |s.procs| && s.procs[k].phase.Alive?
       case ReaperCollects(k) => k < |s.procs| && s.procs[k].phase.Zombie? && s.hand.None? && !s.closed
       case ReaperPushes => s.hand.Some?
       case ReaperCloses => s.hand.None? && s.cancelled && !s.closed
  }

  function Next(cfg: Config, s: State, step: Step): State
    requires Enabled(cfg, s, step)
  {
    match step
    case RunBegins => Begun(cfg, s)
    case BundleMissing(t) => StartFailed(s, t)
    case CreateFails(t) => StartFailed(s, t)
    case CreateSucceeds(t, pid) => Created(s, t, pid)
    case StartFails(t) => StartFailed(s, t)
    case StartSucceeds(t) => StartedOk(cfg, s, t)
    case Registers(t, pid) => RegisteredBy(cfg, s, t, pid)
    case ConsumerSpawns =>
      s.(run := if cfg.containers == [] then Returned(RunOk) else Waiting(0), consumer := Receiving)
    case RunSeesDone =>
      s.(run := if s.run.i + 1 == |cfg.containers| then Returned(RunOk) else Waiting(s.run.i + 1))
    case RunSeesCancel => s.(run := Returned(RunCancelled))
    case Receives => Received(s)
    case ChannelEnds => s.(consumer := Ended)
    case Decides => Judged(cfg, s)
    case ClosesDone => DoneClosed(s)
    case StopSweeps => s.(shared := s.shared.Swept(), stop := Polling)
    case StopSeesAllExited => s.(stop := StopReturned(true))
    case DeadlineFires => s.(stop := StopReturned(false))
    case Cancels => s.(cancelled := true)
    case OtherProcessStarts(pid) => s.(procs := s.procs + [Process(pid, Alive, None)])
    case ProcessExits(k, status) => Exited(s, k, status)
    case ReaperCollects(k) => CollectedBy(s, k)
    case ReaperPushes => Pushed(s)
    case ReaperCloses => s.(closed := true)
  }

  /** The state a sequence of steps leads to, if each step is enabled when its turn comes. */
  function After(cfg: Config, steps: seq<Step>): Option<State> {
    if steps == [] then Some(Initial())
    else
      var before := After(cfg, steps[..|steps| - 1]);
      var step := steps[|steps| - 1];
      if before.Some? && Enabled(cfg, before.value, step) then Some(Next(cfg, before.value, step)) else None
  }

  lemma AfterOneMore(cfg: Config, steps: seq<Step>, step: Step)
    ensures var before := After(cfg, steps);
            After(cfg, steps + [step]) ==
            if before.Some? && Enabled(cfg, before.value, step) then Some(Next(cfg, before.value, step)) else None
  {
    assert (steps + [step])[..|steps|] == steps;
  }
}
