/** The registry's methods, each run from taking the lock to releasing it. What the kernel and the helpers
    do is handed in. */
module CubeFSRegistry {
  import opened Common
  import opened CubeFS
  import opened CubeFSLog

  /** What the system does during one Mount: everything before the client runs works, the log file can be
      created, the client's mount shows up before the deadline, the client exits early. */
  datatype System = System(starts: bool, logs: bool, appears: bool, dies: bool)

  /** Waiting ends well if the client mounts in time, and also if something is mounted at the path already. */
  predicate Mounts(msg: Message, mounts: multiset<string>, sys: System) {
    sys.starts && (sys.appears || msg.mountPoint in mounts)
  }

  function OutcomeOf(msg: Message, blocked: bool, mounts: multiset<string>, sys: System): Outcome {
    if blocked then KeptOld
    else if msg.unmount || Mounts(msg, mounts, sys) then Done
    else NotMounted
  }

  /** The mount table without the mount of an entry, if there is such an entry. */
  function Without(mounts: multiset<string>, active: map<string, Entry>, id: string): multiset<string> {
    mounts - if id in active then multiset{active[id].mountPoint} else multiset{}
  }

  /** The entries after a call whose client, if it mounts, gets the given process number. */
  function AfterCall(was: map<string, Entry>, msg: Message, outcome: Outcome, pid: nat): map<string, Entry> {
    if outcome == KeptOld then was
    else if outcome == Done && !msg.unmount then was[msg.id := Entry(msg.mountPoint, pid)]
    else was - {msg.id}
  }

  /** A call shows in the registry as its log event does in the fold. */
  lemma CallFollowsLog(was: map<string, Entry>, msg: Message, outcome: Outcome, pid: nat)
    ensures View(AfterCall(was, msg, outcome, pid)) == Effect(View(was), Handled(msg, outcome))
    ensures AfterCall(was, msg, outcome, pid) - {msg.id} == was - {msg.id}
  {
    ViewOfChange(was, msg.id, Entry(msg.mountPoint, pid));
  }

  /** The outcome of a call and the entries after it, case by case. */
  lemma OutcomeInWords(was: map<string, Entry>, had: multiset<string>, msg: Message, works: bool, sys: System, pid: nat)
    ensures var blocked := msg.id in was && !(works && was[msg.id].mountPoint in had);
            var left := if msg.id in was then had - multiset{was[msg.id].mountPoint} else had;
            var outcome := OutcomeOf(msg, blocked, Without(had, was, msg.id), sys);
            var after := AfterCall(was, msg, outcome, pid);
            && (blocked ==> outcome == KeptOld && after == was)
            && (!blocked && msg.unmount ==> outcome == Done && after == was - {msg.id})
            && (!blocked && !msg.unmount ==>
                  if sys.starts && (sys.appears || msg.mountPoint in left)
                  then outcome == Done && after == was[msg.id := Entry(msg.mountPoint, pid)]
                  else outcome == NotMounted && after == was - {msg.id})
  {}

  lemma ReapingKeepsOwned(active: map<string, Entry>, procs: seq<Proc>, logs: set<nat>, flying: Option<nat>, pid: nat)
    requires Owned(active, procs, logs, flying) && pid < |procs|
    ensures Owned(active, procs[pid := Reaped], logs - {pid}, flying)
  {
  }

  /** The entries at a path for which a helper works. */
  function Helped(active: map<string, Entry>, working: set<string>, path: string): (h: set<string>)
    ensures forall id :: id in h <==> id in active && id in working && active[id].mountPoint == path
  {
    set id | id in active && id in working && active[id].mountPoint == path
  }

  /** A helper works for the entry, and its path has mounts for all such entries at it. */
  predicate CanGo(active: map<string, Entry>, mounts: multiset<string>, working: set<string>, id: string)
    requires id in active
  {
    var path := active[id].mountPoint;
    id in working && |Helped(active, working, path)| <= mounts[path]
  }

  /** How many of the helped entries at a path are gone. */
  function Gone(was: map<string, Entry>, active: map<string, Entry>, working: set<string>, path: string): int {
    |Helped(was, working, path)| - |Helped(active, working, path)|
  }

  function Left(mounts: nat, detaches: int): nat {
    if mounts <= detaches then 0 else if detaches <= 0 then mounts else mounts - detaches
  }

  /** Each helped entry that is gone has taken a mount with it as long as there was one. */
  ghost predicate Tally(was: map<string, Entry>, had: multiset<string>, active: map<string, Entry>,
                        mounts: multiset<string>, working: set<string>) {
    forall path :: Gone(was, active, working, path) >= 0
                   && mounts[path] == Left(had[path], Gone(was, active, working, path))
  }

  /** No detach has failed yet. */
  ghost predicate Clean(was: map<string, Entry>, had: multiset<string>, active: map<string, Entry>,
                        working: set<string>) {
    && (forall id | id in was && id !in active :: id in working)
    && forall path :: Gone(was, active, working, path) <= had[path]
  }

  lemma HelpedAfterRemoving(active: map<string, Entry>, working: set<string>, id: string, path: string)
    requires id in active
    ensures |Helped(active - {id}, working, path)| ==
            |Helped(active, working, path)| - if id in working && active[id].mountPoint == path then 1 else 0
  {
    var now := Helped(active - {id}, working, path);
    if id in working && active[id].mountPoint == path {
      assert Helped(active, working, path) == now + {id};
    } else {
      assert Helped(active, working, path) == now;
    }
  }

  lemma GoneAfterRemoving(was: map<string, Entry>, active: map<string, Entry>, working: set<string>, id: string)
    requires id in active
    ensures forall path ::
              Gone(was, active - {id}, working, path) ==
              Gone(was, active, working, path) + if id in working && active[id].mountPoint == path then 1 else 0
  {
    forall path
      ensures Gone(was, active - {id}, working, path) ==
              Gone(was, active, working, path) + if id in working && active[id].mountPoint == path then 1 else 0
    {
      HelpedAfterRemoving(active, working, id, path);
    }
  }

  lemma EntryGoes(was: map<string, Entry>, had: multiset<string>, active: map<string, Entry>, before: multiset<string>,
                  after: multiset<string>, working: set<string>, id: string, ok: bool)
    requires id in active && id in was && active[id] == was[id] && Tally(was, had, active, before, working)
    requires ok == (id in working && active[id].mountPoint in before)
    requires after == before - if ok then multiset{active[id].mountPoint} else multiset{}
    ensures Tally(was, had, active - {id}, after, working)
    ensures ok && Clean(was, had, active, working) ==> Clean(was, had, active - {id}, working)
  {
    GoneAfterRemoving(was, active, working, id);
  }

  /** If an entry's own detach fails although a helper works for it, its path had too few mounts. */
  lemma FailedEntryCannotGo(was: map<string, Entry>, had: multiset<string>, active: map<string, Entry>,
                            before: multiset<string>, working: set<string>, id: string)
    requires id in active && id in was && active[id] == was[id] && Tally(was, had, active, before, working)
    requires !(id in working && active[id].mountPoint in before)
    ensures !CanGo(was, had, working, id)
  {
    var path := active[id].mountPoint;
    if id in working {
      HelpedAfterRemoving(active, working, id, path);
      assert before[path] == Left(had[path], Gone(was, active, working, path));
    }
  }

  /** Where UnmountAll has got to. */
  ghost predicate SoFar(was: map<string, Entry>, had: multiset<string>, active: map<string, Entry>,
                        mounts: multiset<string>, working: set<string>, first: Option<string>) {
    && (forall id | id in active :: id in was && active[id] == was[id])
    && Tally(was, had, active, mounts, working)
    && (first.Some? ==> first.value in was && !CanGo(was, had, working, first.value))
    && (first.None? ==> Clean(was, had, active, working))
  }

  lemma OneLess(was: map<string, Entry>, had: multiset<string>, active: map<string, Entry>, before: multiset<string>,
                after: multiset<string>, working: set<string>, first: Option<string>, id: string, ok: bool)
    requires id in active && SoFar(was, had, active, before, working, first)
    requires ok == (id in working && active[id].mountPoint in before)
    requires after == before - if ok then multiset{active[id].mountPoint} else multiset{}
    ensures SoFar(was, had, active - {id}, after, working, if !ok && first.None? then Some(id) else first)
  {
    EntryGoes(was, had, active, before, after, working, id, ok);
    if !ok {
      FailedEntryCannotGo(was, had, active, before, working, id);
    }
  }

  /** With every entry gone, the mounts that are left and whether there was an error follow. */
  lemma AllGone(was: map<string, Entry>, had: multiset<string>, mounts: multiset<string>, working: set<string>,
                first: Option<string>)
    requires SoFar(was, had, map[], mounts, working, first)
    ensures forall path :: mounts[path] == Left(had[path], |Helped(was, working, path)|)
    ensures first.None? <==> forall id | id in was :: CanGo(was, had, working, id)
  {
    assert forall path :: Helped(map[], working, path) == {};
    assert forall path :: Gone(was, map[], working, path) == |Helped(was, working, path)|;
  }

  lemma LogsAreOfProcesses(active: map<string, Entry>, procs: seq<Proc>, logs: set<nat>)
    requires Owned(active, procs, logs, None)
    ensures forall p | p in logs :: p < |procs|
  {
    forall p | p in logs ensures p < |procs| {
      assert p in Pids(active);
      var id :| id in active && active[id].pid == p;
    }
  }

  class Registry {
    var active: map<string, Entry>
    var procs: seq<Proc>
    var logs: set<nat>
    var mounts: multiset<string>

    ghost predicate Valid()
      reads this
    {
      Owned(active, procs, logs, None)
    }

    constructor ()
      ensures Valid() && active == map[] && procs == [] && logs == {} && mounts == multiset{}
    {
      active, procs, logs, mounts := map[], [], {}, multiset{};
    }

    /** Kill, then wait until the reaper has seen the process go, then close the log. */
    method StopClient(pid: nat)
      requires pid < |procs|
      modifies this`procs, this`logs
      ensures procs == old(procs)[pid := Reaped] && logs == old(logs) - {pid}
    {
      procs := Kill(procs, pid);
      if procs[pid] == Zombie {
        procs := procs[pid := Reaped];
      }
      logs := logs - {pid};
    }

    /** The client is stopped even when the mount could not be detached. */
    method Unmount(id: string, works: bool) returns (ok: bool)
      requires Valid() && id in active
      modifies this`procs, this`logs, this`mounts
      ensures Valid()
      ensures ok == (works && active[id].mountPoint in old(mounts))
      ensures mounts == old(mounts) - if ok then multiset{active[id].mountPoint} else multiset{}
      ensures procs == old(procs)[active[id].pid := Reaped] && logs == old(logs) - {active[id].pid}
    {
      var m := active[id];
      ok := works && m.mountPoint in mounts;
      if ok {
        mounts := mounts - multiset{m.mountPoint};
      }
      ReapingKeepsOwned(active, procs, logs, None, m.pid);
      StopClient(m.pid);
    }

    /** Launches a client and waits for its mount. Without a mount no process and no log stay behind. */
    method Mount(msg: Message, sys: System) returns (m: Option<Entry>)
      requires Valid()
      modifies this`procs, this`logs, this`mounts
      ensures m == if Mounts(msg, old(mounts), sys) then Some(Entry(msg.mountPoint, |old(procs)|)) else None
      ensures Owned(active, procs, logs, if m.Some? then Some(m.value.pid) else None)
      ensures if sys.starts then |procs| == |old(procs)| + 1 && old(procs) <= procs else procs == old(procs)
      ensures mounts == old(mounts) + if sys.starts && sys.appears then multiset{msg.mountPoint} else multiset{}
      ensures m.Some? <==> sys.starts && (sys.appears || msg.mountPoint in old(mounts))
      ensures m.Some? ==> m.value == Entry(msg.mountPoint, |old(procs)|) && msg.mountPoint in mounts
      ensures m.None? ==> logs == old(logs)
      ensures sys.starts && msg.mountPoint !in mounts ==> m.None? && procs == old(procs) + [Reaped]
    {
      if !sys.starts {
        return None;
      }
      LaunchKeepsOwned(active, procs, logs, sys.logs);
      LogsAreOfProcesses(active, procs, logs);
      var pid := |procs|;
      procs := procs + [Running];
      if sys.logs {
        logs := logs + {pid};
      }
      if sys.dies {
        procs := procs[pid := Reaped];
      }
      if sys.appears {
        mounts := mounts + multiset{msg.mountPoint};
      }
      if msg.mountPoint !in mounts {
        ReapingKeepsOwned(active, procs, logs, Some(pid), pid);
        StopClient(pid);
        return None;
      }
      m := Some(Entry(msg.mountPoint, pid));
    }

    /** An entry whose client is gone leaves the map. */
    method TakeOutEntry(id: string)
      requires Valid() && id in active && procs[active[id].pid] == Reaped && active[id].pid !in logs
      modifies this`active
      ensures Valid() && active == old(active) - {id}
    {
      EntryMayGo(active, procs, logs, id);
      assert logs - {active[id].pid} == logs;
      active := active - {id};
    }

    /** The first part of Apply: whatever is mounted under the id goes, unless it cannot be detached. */
    method TakeOut(id: string, works: bool) returns (ok: bool)
      requires Valid()
      modifies this
      ensures Valid()
      ensures ok == (id in old(active) ==> works && old(active[id].mountPoint in mounts))
      ensures active == if ok then old(active) - {id} else old(active)
      ensures procs == if id in old(active) then old(procs)[old(active[id].pid) := Reaped] else old(procs)
      ensures logs == if id in old(active) then old(logs) - {old(active[id].pid)} else old(logs)
      ensures mounts == if ok && id in old(active) then old(mounts) - multiset{old(active)[id].mountPoint}
                        else old(mounts)
    {
      ok := true;
      if id in active {
        ok := Unmount(id, works);
        if ok {
          TakeOutEntry(id);
        }
      } else {
        assert active - {id} == active;
      }
    }

    /** The last part of Apply: mount, and register on success. */
    method PutIn(msg: Message, sys: System) returns (err: bool)
      requires Valid() && msg.id !in active
      modifies this
      ensures Valid()
      ensures err == !Mounts(msg, old(mounts), sys)
      ensures err <==> !sys.starts || (!sys.appears && msg.mountPoint !in old(mounts))
      ensures active == if err then old(active) else old(active)[msg.id := Entry(msg.mountPoint, |old(procs)|)]
      ensures old(procs) <= procs
      ensures !err ==> msg.mountPoint in mounts
      ensures err ==> procs == old(procs) + (if sys.starts then [Reaped] else []) && logs == old(logs)
    {
      var m := Mount(msg, sys);
      if m.None? {
        return true;
      }
      EntryMayCome(active, procs, logs, msg.id, m.value);
      active := active[msg.id := m.value];
      err := false;
    }

    /** One message: a failed detach keeps the old entry, although its client is gone; no other process is
        touched. Otherwise the old entry is gone, and the new one is there iff its client starts and its path is a
        mount; a client whose path is not is reaped, its log closed. */
    method Apply(msg: Message, works: bool, sys: System) returns (err: bool)
      requires Valid()
      modifies this
      ensures Valid()
      ensures var blocked := msg.id in old(active) && !(works && old(active[msg.id].mountPoint in mounts));
              var outcome := OutcomeOf(msg, blocked, Without(old(mounts), old(active), msg.id), sys);
              err == (outcome != Done) && active == AfterCall(old(active), msg, outcome, |old(procs)|)
      ensures (if msg.id in old(active) then old(procs)[old(active[msg.id].pid) := Reaped] else old(procs)) <= procs
      ensures msg.id in old(active) && !(works && old(active[msg.id].mountPoint in mounts)) ==>
                && err && active == old(active) && mounts == old(mounts)
                && procs == old(procs)[old(active[msg.id].pid) := Reaped]
      ensures (msg.id in old(active) ==> works && old(active[msg.id].mountPoint in mounts)) ==>
                && (msg.unmount ==> !err)
                && (!msg.unmount && !err ==> sys.starts && msg.mountPoint in mounts)
                && (!msg.unmount && err ==>
                      && |procs| == |old(procs)| + (if sys.starts then 1 else 0)
                      && (sys.starts ==> procs[|old(procs)|] == Reaped && |old(procs)| !in logs && !sys.appears))
                && active == if msg.unmount || err then old(active) - {msg.id}
                             else old(active)[msg.id := Entry(msg.mountPoint, |old(procs)|)]
    {
      LogsAreOfProcesses(active, procs, logs);
      OutcomeInWords(active, mounts, msg, works, sys, |procs|);
      ghost var was := active;
      var ok := TakeOut(msg.id, works);
      if !ok {
        return true;
      }
      if msg.unmount {
        return false;
      }
      err := Replace(was, msg, sys);
    }

    /** Apply behind the old mount's removal. */
    method Replace(ghost was: map<string, Entry>, msg: Message, sys: System) returns (err: bool)
      requires Valid() && active == was - {msg.id}
      modifies this
      ensures Valid()
      ensures err <==> !sys.starts || (!sys.appears && msg.mountPoint !in old(mounts))
      ensures active == if err then was - {msg.id} else was[msg.id := Entry(msg.mountPoint, |old(procs)|)]
      ensures old(procs) <= procs
      ensures !err ==> msg.mountPoint in mounts
      ensures err ==> procs == old(procs) + (if sys.starts then [Reaped] else []) && logs == old(logs)
    {
      err := PutIn(msg, sys);
      if !err {
        assert active == was[msg.id := active[msg.id]];
      }
    }

    /** One round of UnmountAll: the entry goes even if its mount does not. */
    method Discard(id: string, works: bool) returns (ok: bool)
      requires Valid() && id in active
      modifies this
      ensures Valid() && active == old(active) - {id} && |procs| == |old(procs)|
      ensures ok == (works && old(active[id].mountPoint in mounts))
      ensures mounts == old(mounts) - if ok then multiset{old(active[id].mountPoint)} else multiset{}
    {
      ok := Unmount(id, works);
      TakeOutEntry(id);
    }

    /** Afterwards nothing is held: no entry, no process, no open log, even where a detach failed. There is an
        error exactly if some entry has no working helper or some path has more entries with one than it has
        mounts; it is about an entry at such a path. */
    method UnmountAll(working: set<string>) returns (first: Option<string>)
      requires Valid()
      modifies this
      ensures Valid() && active == map[] && logs == {}
      ensures |procs| == |old(procs)| && forall p: nat | p < |procs| :: procs[p] == Reaped
      ensures forall path ::
                var had, gone := old(mounts)[path], |Helped(old(active), working, path)|;
                mounts[path] == if gone < had then had - gone else 0
      ensures first.None? <==>
              forall id | id in old(active) ::
                id in working &&
                |Helped(old(active), working, old(active)[id].mountPoint)| <= old(mounts)[old(active)[id].mountPoint]
      ensures first.Some? ==>
                && first.value in old(active)
                && var path := old(active)[first.value].mountPoint;
                   first.value !in working || |Helped(old(active), working, path)| > old(mounts)[path]
    {
      first := None;
      ghost var was, had := active, mounts;
      while active != map[]
        invariant Valid() && |procs| == |old(procs)|
        invariant SoFar(was, had, active, mounts, working, first)
        decreases |active|
      {
        var id :| id in active;
        ghost var all, before := active, mounts;
        var ok := Discard(id, id in working);
        OneLess(was, had, all, before, mounts, working, first, id, ok);
        if !ok && first.None? {
          first := Some(id);
        }
      }
      AllGone(was, had, mounts, working, first);
    }
  }
}
