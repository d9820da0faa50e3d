/** What the registry holds, as a fold over the publish log. */
module CubeFSLog {
  import opened Common
  import opened CubeFS

  function View(active: map<string, Entry>): map<string, string> {
    map id | id in active :: active[id].mountPoint
  }

  function EventId(e: Event): string {
    if e.Handled? then e.msg.id else e.sid
  }

  /** An event that leaves no trace of what was there before for its id. */
  predicate Settles(e: Event, id: string) {
    EventId(e) == id && (e.Handled? ==> e.outcome != KeptOld)
  }

  /** The mount point that a settling event leaves for its id. */
  function Says(e: Event): Option<string> {
    if e.Handled? && e.outcome == Done && !e.msg.unmount then Some(e.msg.mountPoint) else None
  }

  function Effect(m: map<string, string>, e: Event): map<string, string> {
    var id := EventId(e);
    if !Settles(e, id) then m
    else if Says(e).Some? then m[id := Says(e).value]
    else m - {id}
  }

  function Fold(m: map<string, string>, log: seq<Event>): map<string, string>
    decreases |log|
  {
    if log == [] then m else Fold(Effect(m, log[0]), log[1..])
  }

  function Lookup(m: map<string, string>, id: string): Option<string> {
    if id in m then Some(m[id]) else None
  }

  lemma {:induction false} FoldAppends(m: map<string, string>, log: seq<Event>, e: Event)
    ensures Fold(m, log + [e]) == Effect(Fold(m, log), e)
    decreases |log|
  {
    if log == [] {
      assert [e][1..] == [];
      assert log + [e] == [e];
    } else {
      assert (log + [e])[1..] == log[1..] + [e];
      FoldAppends(Effect(m, log[0]), log[1..], e);
    }
  }

  /** The last event that settles an id. */
  function LastSettling(log: seq<Event>, id: string): (i: Option<nat>)
    ensures i.Some? ==> i.value < |log| && Settles(log[i.value], id)
    ensures forall j | 0 <= j < |log| && (i.None? || j > i.value) :: !Settles(log[j], id)
  {
    if log == [] then None
    else
      var n := |log| - 1;
      if Settles(log[n], id) then Some(n) else LastSettling(log[..n], id)
  }

  /** Only the last settling event of an id decides about it, whatever failed before. */
  lemma {:induction false} LastSettlingEventDecides(log: seq<Event>, id: string)
    ensures var i := LastSettling(log, id);
            Lookup(Fold(map[], log), id) == if i.Some? then Says(log[i.value]) else None
  {
    if log != [] {
      var n := |log| - 1;
      assert log == log[..n] + [log[n]];
      FoldAppends(map[], log[..n], log[n]);
      LastSettlingEventDecides(log[..n], id);
    }
  }

  // The registry agrees with the log

  /** The id that the lock holder has taken out and not yet put back. */
  predicate Agrees(s: State) {
    var folded := Fold(map[], s.history);
    View(s.active) ==
    if s.phase.Launching? || s.phase.Waiting? || s.phase.Failing? then folded - {s.phase.msg.id} else folded
  }

  /** Removing or adding an entry shows in the view as just that. */
  lemma ViewOfChange(active: map<string, Entry>, id: string, entry: Entry)
    ensures View(active - {id}) == View(active) - {id}
    ensures View(active[id := entry]) == View(active)[id := entry.mountPoint]
  {
  }

  lemma ReaperKeepsAgreement(s: State)
    requires Sound(s) && Agrees(s) && Enabled(s, ReaperReturns)
    ensures Agrees(AfterReaper(s))
  {
    var folded := Fold(map[], s.history);
    match s.phase
    case Stopping(msg, detached) =>
      ViewOfChange(s.active, msg.id, s.active[msg.id]);
      FoldAppends(map[], s.history, Handled(msg, if detached then Done else KeptOld));
    case SweepStopping(id) =>
      ViewOfChange(s.active, id, s.active[id]);
      FoldAppends(map[], s.history, Swept(id));
    case Failing(msg, _) =>
      FoldAppends(map[], s.history, Handled(msg, NotMounted));
  }

  lemma BeginKeepsAgreement(s: State, msg: Message, works: bool)
    requires Sound(s) && Agrees(s) && Enabled(s, BeginApply(msg, works))
    ensures Agrees(Next(s, BeginApply(msg, works)))
  {
    if msg.id !in s.active {
      FoldAppends(map[], s.history, Handled(msg, Done));
      assert msg.id !in View(s.active);
      assert View(s.active) - {msg.id} == View(s.active);
    }
  }

  lemma StepKeepsAgreement(s: State, step: Step)
    requires Sound(s) && Agrees(s) && Enabled(s, step)
    ensures Agrees(Next(s, step))
  {
    match step
    case BeginApply(msg, works) => BeginKeepsAgreement(s, msg, works);
    case ReaperReturns => ReaperKeepsAgreement(s);
    case Launch(_, _) => FoldAppends(map[], s.history, Handled(s.phase.msg, NotMounted));
    case MountSeen =>
      var msg := s.phase.msg;
      ViewOfChange(s.active, msg.id, Entry(msg.mountPoint, s.phase.pid));
      FoldAppends(map[], s.history, Handled(msg, Done));
    case _ =>
  }

  lemma {:induction false} RunKeepsAgreement(s: State, run: seq<Step>)
    requires Sound(s) && Agrees(s) && After(s, run).Some?
    ensures Agrees(After(s, run).value)
    decreases |run|
  {
    if run != [] {
      StepKeepsSound(s, run[0]);
      StepKeepsAgreement(s, run[0]);
      RunKeepsAgreement(Next(s, run[0]), run[1..]);
    }
  }

  /** After any run, with the lock free: an id has an entry exactly if the last call that settled it
      mounted it, and then at that call's mount point. */
  lemma RegistryIsItsLog(run: seq<Step>, id: string)
    requires After(INITIAL, run).Some?
    ensures var s := After(INITIAL, run).value;
            var i := LastSettling(s.history, id);
            s.phase == Idle ==>
              Lookup(View(s.active), id) == if i.Some? then Says(s.history[i.value]) else None
  {
    assert View(map[]) == map[];
    RunKeepsAgreement(INITIAL, run);
    LastSettlingEventDecides(After(INITIAL, run).value.history, id);
  }

  // Compaction of the publish log

  /** Each id's last message only. */
  function KeepLast(log: seq<Message>): seq<Message> {
    if log == [] then []
    else if exists m :: m in log[1..] && m.id == log[0].id then KeepLast(log[1..])
    else [log[0]] + KeepLast(log[1..])
  }

  /** Compaction keeps messages of the log only, and one for each id. */
  lemma {:induction false} KeepsOneEach(log: seq<Message>)
    ensures forall m | m in KeepLast(log) :: m in log
    ensures forall i, j | 0 <= i < j < |KeepLast(log)| :: KeepLast(log)[i].id != KeepLast(log)[j].id
  {
    if log != [] {
      KeepsOneEach(log[1..]);
    }
  }

  /** It keeps each id's last message. */
  lemma {:induction false} KeepsTheLast(a: seq<Message>, m: Message, b: seq<Message>)
    requires forall k | k in b :: k.id != m.id
    ensures m in KeepLast(a + [m] + b)
  {
    var log := a + [m] + b;
    if a == [] {
      assert log[0] == m && log[1..] == b;
    } else {
      assert log[0] == a[0] && log[1..] == a[1..] + [m] + b;
      KeepsTheLast(a[1..], m, b);
    }
  }

  function AllDone(log: seq<Message>): seq<Event> {
    if log == [] then [] else [Handled(log[0], Done)] + AllDone(log[1..])
  }

  predicate AgreeExcept(m: map<string, string>, n: map<string, string>, id: string) {
    m - {id} == n - {id}
  }

  /** What is held for an id is forgotten if a later message speaks about it. */
  lemma {:induction false} LaterMessageOverrides(m: map<string, string>, n: map<string, string>, id: string,
                                                 log: seq<Message>)
    requires AgreeExcept(m, n, id)
    requires exists msg :: msg in log && msg.id == id
    ensures Fold(m, AllDone(log)) == Fold(n, AllDone(log))
    decreases |log|
  {
    var e := Handled(log[0], Done);
    assert AllDone(log)[1..] == AllDone(log[1..]);
    AgreementSpreads(m, n, id, e);
    if log[0].id != id {
      var msg :| msg in log && msg.id == id;
      assert msg in log[1..];
      LaterMessageOverrides(Effect(m, e), Effect(n, e), id, log[1..]);
    }
  }

  lemma AgreementSpreads(m: map<string, string>, n: map<string, string>, id: string, e: Event)
    requires AgreeExcept(m, n, id) && e.Handled? && e.outcome == Done
    ensures if e.msg.id == id then Effect(m, e) == Effect(n, e) else AgreeExcept(Effect(m, e), Effect(n, e), id)
  {
    var eid := e.msg.id;
    if eid == id {
      assert m - {id} == n - {id};
      if Says(e).Some? {
        assert m[id := Says(e).value] == (m - {id})[id := Says(e).value];
        assert n[id := Says(e).value] == (n - {id})[id := Says(e).value];
      }
    } else if Says(e).Some? {
      assert m[eid := Says(e).value] - {id} == (m - {id})[eid := Says(e).value];
      assert n[eid := Says(e).value] - {id} == (n - {id})[eid := Says(e).value];
    } else {
      assert m - {eid} - {id} == m - {id} - {eid};
      assert n - {eid} - {id} == n - {id} - {eid};
    }
  }

  lemma TouchesOnlyItsId(m: map<string, string>, e: Event)
    ensures AgreeExcept(Effect(m, e), m, EventId(e))
  {
  }

  lemma {:induction false} CompactionFolds(m: map<string, string>, log: seq<Message>)
    ensures Fold(m, AllDone(KeepLast(log))) == Fold(m, AllDone(log))
    decreases |log|
  {
    if log != [] {
      var e := Handled(log[0], Done);
      assert AllDone(log)[1..] == AllDone(log[1..]);
      if exists k :: k in log[1..] && k.id == log[0].id {
        CompactionFolds(m, log[1..]);
        TouchesOnlyItsId(m, e);
        LaterMessageOverrides(Effect(m, e), m, log[0].id, log[1..]);
      } else {
        var kept := [log[0]] + KeepLast(log[1..]);
        assert kept[1..] == KeepLast(log[1..]);
        assert AllDone(kept)[1..] == AllDone(kept[1..]);
        CompactionFolds(Effect(m, e), log[1..]);
      }
    }
  }

  /** Two runs whose calls all succeeded, one over a publish log and one over its compacted form, end with
      the same shares mounted at the same places, whatever else happened in between. */
  lemma SuccessfulRunsAgree(full: seq<Step>, compacted: seq<Step>, log: seq<Message>, shorter: seq<Message>)
    requires After(INITIAL, full).Some? && After(INITIAL, compacted).Some?
    requires After(INITIAL, full).value.phase == Idle && After(INITIAL, compacted).value.phase == Idle
    requires After(INITIAL, full).value.history == AllDone(log)
    requires After(INITIAL, compacted).value.history == AllDone(shorter)
    requires Fold(map[], AllDone(log)) == Fold(map[], AllDone(shorter))
    ensures View(After(INITIAL, full).value.active) == View(After(INITIAL, compacted).value.active)
  {
    assert View(map[]) == map[];
    RunKeepsAgreement(INITIAL, full);
    RunKeepsAgreement(INITIAL, compacted);
  }

  lemma {:induction false} FoldConcat(m: map<string, string>, a: seq<Message>, b: seq<Message>)
    ensures Fold(m, AllDone(a + b)) == Fold(Fold(m, AllDone(a)), AllDone(b))
    decreases |a|
  {
    if a == [] {
      assert a + b == b;
    } else {
      assert (a + b)[1..] == a[1..] + b;
      assert AllDone(a)[1..] == AllDone(a[1..]) && AllDone(a + b)[1..] == AllDone((a + b)[1..]);
      FoldConcat(Effect(m, Handled(a[0], Done)), a[1..], b);
    }
  }

  /** A message that is not its id's last may be dropped. */
  lemma OneMessageDropped(a: seq<Message>, msg: Message, b: seq<Message>)
    requires exists later :: later in b && later.id == msg.id
    ensures Fold(map[], AllDone(a + [msg] + b)) == Fold(map[], AllDone(a + b))
  {
    var m, e := Fold(map[], AllDone(a)), Handled(msg, Done);
    assert a + [msg] + b == a + ([msg] + b);
    FoldConcat(map[], a, [msg] + b);
    FoldConcat(map[], a, b);
    assert ([msg] + b)[1..] == b;
    assert AllDone([msg] + b)[1..] == AllDone(b);
    TouchesOnlyItsId(m, e);
    LaterMessageOverrides(Effect(m, e), m, msg.id, b);
  }
}
