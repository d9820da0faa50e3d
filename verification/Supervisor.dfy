/** The supervisor's objects: each method is one atomic section of the protocol, proved to do to the
    shared maps what the protocol's step says. */
module Supervisor {
  import opened Common
  import opened PodSpec
  import opened Lifecycle

  /** The state of one container, shared by reference between the threads. */
  class ContainerRecord {
    const restart: string
    var starts: nat
    var lastExit: Option<Reaped>
    var pid: int
    var stopped: bool
    var done: bool

    constructor (c: Container)
      ensures View() == ContainerState(c.restart, 0, None, 0, false, false)
    {
      restart, starts, lastExit, pid, stopped, done := c.restart, 0, None, 0, false, false;
    }

    ghost function View(): ContainerState
      reads this
    {
      ContainerState(restart, starts, lastExit, pid, stopped, done)
    }

    method RecordStart(newPid: int)
      modifies this
      ensures View() == old(View()).(pid := newPid, starts := old(View()).starts + 1)
    {
      pid := newPid;
      starts := starts + 1;
    }
  }

  class Supervisor {
    const containers: seq<Container>
    var states: map<string, ContainerRecord>
    var pidIndex: map<int, string>

    /** Different containers have different records. */
    ghost predicate Valid()
      reads this
    {
      forall a, b | a in states && b in states && a != b :: states[a] != states[b]
    }

    ghost function View(): Shared
      reads this, states.Values
    {
      Shared(map id | id in states :: states[id].View(), pidIndex)
    }

    constructor (containers: seq<Container>)
      ensures Valid() && this.containers == containers && View() == Initial().shared
    {
      this.containers := containers;
      states, pidIndex := map[], map[];
    }

    /** Run takes up a container. */
    method Insert(c: Container)
      requires Valid()
      modifies this`states
      ensures Valid() && View() == old(View()).Inserted(c)
      ensures states.Keys == old(states.Keys) + {c.id} && fresh(states[c.id])
      ensures var st := states[c.id];
              st.restart == c.restart && st.starts == 0 && st.lastExit == None && st.pid == 0 && !st.stopped && !st.done
      ensures forall id | id in old(states) && id != c.id :: states[id] == old(states)[id]
    {
      var st := new ContainerRecord(c);
      states := states[c.id := st];
    }

    /** startOne records the started container. */
    method Register(id: string, newPid: int)
      requires Valid() && id in states
      modifies this`pidIndex, states[id]
      ensures Valid() && View() == old(View()).Registered(id, newPid)
      ensures pidIndex == if newPid > 0 then old(pidIndex)[newPid := id] else old(pidIndex)
      ensures var st := states[id];
              && st.pid == newPid && st.starts == old(st.starts) + 1
              && st.lastExit == old(st.lastExit) && st.stopped == old(st.stopped) && st.done == old(st.done)
    {
      var st := states[id];
      st.RecordStart(newPid);
      assert View().states == old(View()).Registered(id, newPid).states;
      if newPid > 0 {
        pidIndex := pidIndex[newPid := id];
      }
    }

    /** The consumer looks an event up and, if it knows the pid, records the exit. */
    method TakeExit(ev: Reaped) returns (id: Option<string>)
      requires Valid() && (ev.pid in pidIndex ==> pidIndex[ev.pid] in states)
      modifies this`pidIndex, states.Values
      ensures Valid()
      ensures id == if ev.pid in old(pidIndex) then Some(old(pidIndex)[ev.pid]) else None
      ensures View() == if id.Some? then old(View()).Exited(ev) else old(View())
      ensures pidIndex == old(pidIndex) - {ev.pid}
      ensures id.Some? ==>
                var st := states[id.value];
                && st.lastExit == Some(ev) && st.starts == old(st.starts) && st.pid == old(st.pid)
                && st.stopped == old(st.stopped) && st.done == old(st.done)
      ensures forall other | other in states && id != Some(other) :: states[other].View() == old(states[other].View())
    {
      if ev.pid !in pidIndex {
        return None;
      }
      var found := pidIndex[ev.pid];
      pidIndex := pidIndex - {ev.pid};
      var st := states[found];
      st.lastExit := Some(ev);
      return Some(found);
    }

    method ShouldRestart(id: string, ev: Reaped) returns (restart: bool)
      requires id in states
      ensures restart == Lifecycle.ShouldRestart(View().states[id], ev)
      ensures restart <==>
              && !states[id].stopped
              && (states[id].restart == "always"
                  || (states[id].restart == "on-failure" && (ev.status.code != 0 || ev.status.signaled)))
    {
      var st := states[id];
      if st.stopped {
        return false;
      }
      match st.restart {
        case "always" => return true;
        case "on-failure" => return ev.status.code != 0 || ev.status.signaled;
        case _ => return false;
      }
    }

    /** The first container of the spec with this id. */
    method FindSpec(id: string) returns (c: Option<Container>)
      ensures c.Some? <==> Declared(containers, id)
      ensures c.Some? ==> exists i | 0 <= i < |containers| ::
                containers[i] == c.value && c.value.id == id && forall k | 0 <= k < i :: containers[k].id != id
    {
      for i := 0 to |containers|
        invariant forall k | 0 <= k < i :: containers[k].id != id
      {
        if containers[i].id == id {
          return Some(containers[i]);
        }
      }
      return None;
    }

    /** Closing done a second time would panic, so the caller must know it is open. */
    method CloseDone(id: string)
      requires Valid() && id in states && !states[id].done
      modifies states[id]
      ensures Valid() && View() == old(View()).Closed(id)
      ensures var st := states[id];
              && st.done && st.starts == old(st.starts) && st.lastExit == old(st.lastExit)
              && st.pid == old(st.pid) && st.stopped == old(st.stopped)
    {
      var st := states[id];
      st.done := true;
      assert forall other | other in states && other != id :: states[other].View() == old(states[other].View());
    }

    /** Stop disables restarts, container by container in any order, and lists the ids to signal. */
    method Sweep() returns (ids: seq<string>)
      requires Valid()
      modifies states.Values
      ensures Valid() && View() == old(View()).Swept()
      ensures forall id | id in states ::
                var st := states[id];
                && st.stopped && st.starts == old(st.starts) && st.lastExit == old(st.lastExit)
                && st.pid == old(st.pid) && st.done == old(st.done)
      ensures forall id :: id in ids <==> id in states
      ensures forall i, j | 0 <= i < j < |ids| :: ids[i] != ids[j]
    {
      ids := [];
      var left := states.Keys;
      while left != {}
        invariant left <= states.Keys && states == old(states) && pidIndex == old(pidIndex)
        invariant forall id | id in states ::
          states[id].View() == if id in left then old(states[id].View()) else old(states[id].View()).(stopped := true)
        invariant forall id :: id in ids <==> id in states.Keys - left
        invariant forall i, j | 0 <= i < j < |ids| :: ids[i] != ids[j]
        decreases |left|
      {
        var id :| id in left;
        var st := states[id];
        st.stopped := true;
        assert id !in ids;
        ids := ids + [id];
        left := left - {id};
      }
    }

    method AllExited() returns (all: bool)
      ensures all == View().AllExited()
      ensures all <==> forall id | id in states :: states[id].lastExit.Some?
    {
      var left := states.Keys;
      while left != {}
        invariant left <= states.Keys
        invariant forall id | id in states.Keys - left :: states[id].lastExit.Some?
        decreases |left|
      {
        var id :| id in left;
        if states[id].lastExit.None? {
          assert View().states[id].lastExit.None?;
          return false;
        }
        left := left - {id};
      }
      return true;
    }
  }

  function Min(a: nat, b: nat): nat {
    if a < b then a else b
  }

  /** What a drain has done so far: the events the consumer took meanwhile, those in the channel, those
      kept altogether, and those dropped. */
  datatype Progress = Progress(taken: seq<Reaped>, channel: seq<Reaped>, kept: seq<Reaped>, dropped: seq<Reaped>)
  {
    /** The consumer takes some events from the front, and the reaper offers one. */
    function Offered(take: nat, ev: Reaped): Progress {
      var n := Min(take, |channel|);
      var rest := channel[n..];
      if |rest| < CHANNEL_SIZE then Progress(taken + channel[..n], rest + [ev], kept + [ev], dropped)
      else Progress(taken + channel[..n], rest, kept, dropped + [ev])
    }
  }

  function Drained(channel: seq<Reaped>, zombies: seq<Reaped>, takes: seq<nat>): Progress
    requires |takes| == |zombies|
  {
    if zombies == [] then Progress([], channel, [], [])
    else
      var n := |zombies| - 1;
      Drained(channel, zombies[..n], takes[..n]).Offered(takes[n], zombies[n])
  }

  lemma OfferKeepsOrder(d: Progress, take: nat, ev: Reaped)
    ensures var next := d.Offered(take, ev);
            next.taken + next.channel == d.taken + d.channel + if next.kept == d.kept then [] else [ev]
    ensures d.Offered(take, ev).kept == d.kept || d.Offered(take, ev).kept == d.kept + [ev]
  {
    var n := Min(take, |d.channel|);
    assert d.channel == d.channel[..n] + d.channel[n..];
  }

  /** Whenever and however much the consumer takes, it gets the events in order, and none but the dropped
      ones is lost. */
  lemma {:induction false} DrainKeepsOrder(channel: seq<Reaped>, zombies: seq<Reaped>, takes: seq<nat>)
    requires |takes| == |zombies|
    ensures var d := Drained(channel, zombies, takes);
            d.taken + d.channel == channel + d.kept
  {
    if zombies == [] {
      assert [] + channel == channel + [];
    } else {
      var n := |zombies| - 1;
      var d := Drained(channel, zombies[..n], takes[..n]);
      DrainKeepsOrder(channel, zombies[..n], takes[..n]);
      OfferKeepsOrder(d, takes[n], zombies[n]);
      assert channel + d.kept + [zombies[n]] == channel + (d.kept + [zombies[n]]);
      assert channel + d.kept + [] == channel + d.kept;
    }
  }

  /** Every zombie is kept or dropped, once. */
  lemma {:induction false} DrainConserves(channel: seq<Reaped>, zombies: seq<Reaped>, takes: seq<nat>)
    requires |takes| == |zombies|
    ensures var d := Drained(channel, zombies, takes);
            multiset(d.kept) + multiset(d.dropped) == multiset(zombies)
  {
    if zombies != [] {
      var n := |zombies| - 1;
      DrainConserves(channel, zombies[..n], takes[..n]);
      assert zombies == zombies[..n] + [zombies[n]];
    }
  }

  /** The channel never overflows, and no zombie is dropped if all fit. */
  lemma {:induction false} DrainFits(channel: seq<Reaped>, zombies: seq<Reaped>, takes: seq<nat>)
    requires |takes| == |zombies| && |channel| <= 64
    ensures var d := Drained(channel, zombies, takes);
            && |d.channel| <= 64 && |d.channel| <= |channel| + |zombies|
            && (|channel| + |zombies| <= 64 ==> d.dropped == [])
  {
    if zombies != [] {
      var n := |zombies| - 1;
      DrainFits(channel, zombies[..n], takes[..n]);
    }
  }

  /** The reaper: collects zombies and offers each to a bounded channel, dropping what does not fit. */
  class Reaper {
    var events: seq<Reaped>

    constructor ()
      ensures events == []
    {
      events := [];
    }

    /** One drain: the zombies the kernel hands out until it has no more, while the consumer takes events. */
    method Drain(zombies: seq<Reaped>, takes: seq<nat>) returns (taken: seq<Reaped>, dropped: seq<Reaped>)
      requires |takes| == |zombies|
      modifies this
      ensures var d := Drained(old(events), zombies, takes);
              taken == d.taken && events == d.channel && dropped == d.dropped
    {
      taken, dropped := [], [];
      for i := 0 to |zombies|
        invariant var d := Drained(old(events), zombies[..i], takes[..i]);
                  taken == d.taken && events == d.channel && dropped == d.dropped
      {
        assert zombies[..i + 1][..i] == zombies[..i] && takes[..i + 1][..i] == takes[..i];
        var n := Min(takes[i], |events|);
        taken, events := taken + events[..n], events[n..];
        if |events| < CHANNEL_SIZE {
          events := events + [zombies[i]];
        } else {
          dropped := dropped + [zombies[i]];
        }
      }
      assert zombies[..|zombies|] == zombies && takes[..|takes|] == takes;
    }
  }
}
