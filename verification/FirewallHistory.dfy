/** Runs of applies and packets: which table they leave, and what the status then reports. */
module FirewallHistory {
  import opened Common
  import opened Nft
  import opened PodFirewall
  import opened FirewallCompiler
  import opened FirewallApply
  import opened FirewallChains
  import opened FirewallStatus

  /** A call of ApplyFirewall, or a packet passing a hook with an arbitrary register. */
  datatype Event =
    | Applied(rules: seq<FirewallRule>, faults: Faults)
    | Passed(hook: Hook, reg: Register, packet: Packet)

  /** A packet ticks the counters of the weft-fw chains on its hook. */
  function Pass(chains: seq<Chain>, hook: Hook, reg: Register, p: Packet): seq<Chain> {
    seq(|chains|, i requires 0 <= i < |chains| =>
      var c := chains[i];
      if c.hook == hook && WellFormedRules(c.rules) then c.(rules := TickRules(c.rules, reg, p)) else c)
  }

  function Step(rs: Ruleset, e: Event): Ruleset {
    match e
    case Applied(rules, faults) => Reconcile(rs, rules, faults)
    case Passed(hook, reg, p) => if TABLE in rs then rs[TABLE := Pass(rs[TABLE], hook, reg, p)] else rs
  }

  function After(rs: Ruleset, events: seq<Event>): Ruleset {
    if events == [] then rs else Step(After(rs, events[..|events| - 1]), events[|events| - 1])
  }

  /** The rules of the last call that succeeded. */
  function LastApplied(events: seq<Event>): (rules: Option<seq<FirewallRule>>)
    ensures rules.Some? ==> AllCompile(rules.value)
  {
    if events == [] then None
    else
      var e := events[|events| - 1];
      if e.Applied? && Succeeds(e.rules, e.faults) then Some(e.rules) else LastApplied(events[..|events| - 1])
  }

  /** Whether the input chain of a ruleset turns a packet away. */
  predicate Rejected(rules: seq<FirewallRule>, reg: Register, p: Packet)
    requires AllCompile(rules)
  {
    CodeForIsWellFormed(rules, "ingress");
    StandingRulesAreWellFormed();
    assert WellFormedRules(InputRules(rules, 0, 0));
    Traverse(InputRules(rules, 0, 0), Drop, reg, p) == Drop
  }

  datatype Drops = Drops(packets: nat, bytes: nat)

  /** The packets and bytes the input chain has rejected since the last successful call. */
  function DropsSince(events: seq<Event>): Drops
  {
    if events == [] then Drops(0, 0)
    else
      var e := events[|events| - 1];
      var earlier := DropsSince(events[..|events| - 1]);
      var rules := LastApplied(events[..|events| - 1]);
      match e
      case Applied(rs, faults) => if Succeeds(rs, faults) then Drops(0, 0) else earlier
      case Passed(hook, reg, p) =>
        if hook.InputHook? && rules.Some? && Rejected(rules.value, reg, p)
        then Drops(earlier.packets + 1, earlier.bytes + p.size)
        else earlier
  }

  predicate CounterFree(es: Rule) {
    forall i | 0 <= i < |es| :: !es[i].Counter?
  }

  lemma {:induction false} CounterFreeTick(es: Rule, reg: Register, p: Packet)
    requires WellFormedRule(es) && CounterFree(es)
    ensures Tick(es, reg, p) == es
  {
    if es != [] {
      var e := Exec(es[0], reg, p);
      if e.Next? {
        CounterFreeTick(es[1..], e.reg, p);
        assert es == [es[0]] + es[1..];
      }
    }
  }

  /** Rules that count nothing and can only accept. */
  predicate PlainRules(rules: seq<Rule>) {
    forall i | 0 <= i < |rules| :: WellFormedRule(rules[i]) && CounterFree(rules[i]) && OnlyAccepts(rules[i])
  }

  lemma {:induction false} PlainRulesTick(rules: seq<Rule>, reg: Register, p: Packet)
    requires PlainRules(rules)
    ensures TickRules(rules, reg, p) == rules
  {
    if rules != [] {
      CounterFreeTick(rules[0], reg, p);
      var end := Run(rules[0], reg, p);
      if !end.Stops? {
        PlainRulesTick(rules[1..], end.reg, p);
      }
      assert rules == [rules[0]] + rules[1..];
    }
  }

  /** Behind plain rules, the tail rule counts a packet exactly when the chain drops it. */
  lemma {:induction false} TailCountsDrops(rules: seq<Rule>, packets: nat, bytes: nat, reg: Register, p: Packet)
    requires PlainRules(rules)
    ensures WellFormedRules(rules + [TailRule(packets, bytes)])
    ensures var chain := rules + [TailRule(packets, bytes)];
            TickRules(chain, reg, p) ==
            if Traverse(chain, Drop, reg, p) == Drop
            then rules + [TailRule(Add64(packets, 1), Add64(bytes, p.size))]
            else chain
  {
    var tail := TailRule(packets, bytes);
    var chain := rules + [tail];
    if rules == [] {
      assert chain == [tail];
      TailDrops(packets, bytes, reg, p);
      TailTick(packets, bytes, reg, p);
    } else {
      CounterFreeTick(rules[0], reg, p);
      OnlyAcceptsRun(rules[0], reg, p);
      assert chain[1..] == rules[1..] + [tail];
      assert rules == [rules[0]] + rules[1..];
      var end := Run(rules[0], reg, p);
      if !end.Stops? {
        TailCountsDrops(rules[1..], packets, bytes, end.reg, p);
        assert [rules[0]] + (rules[1..] + [TailRule(Add64(packets, 1), Add64(bytes, p.size))]) ==
               rules + [TailRule(Add64(packets, 1), Add64(bytes, p.size))];
      }
    }
  }

  lemma TailTick(packets: nat, bytes: nat, reg: Register, p: Packet)
    ensures WellFormedRules([TailRule(packets, bytes)])
    ensures TickRules([TailRule(packets, bytes)], reg, p) == [TailRule(Add64(packets, 1), Add64(bytes, p.size))]
  {
    var tail := TailRule(packets, bytes);
    TailDrops(packets, bytes, reg, p);
    var rules: seq<Rule> := [tail];
    assert rules[1..] == [];
    assert tail[1..] == [Verdict(Drop)];
    assert Tick([Verdict(Drop)], reg, p) == [Verdict(Drop)];
    assert Exec(tail[0], reg, p) == Next(reg);
    assert Tick(tail, reg, p) == [Bump(tail[0], p)] + [Verdict(Drop)];
    assert Tick(tail, reg, p) == TailRule(Add64(packets, 1), Add64(bytes, p.size));
    assert WellFormedRules(rules);
    assert TickRules(rules, reg, p) == [Tick(tail, reg, p)] + rules[1..];
  }

  lemma {:induction false} CodeForIsPlain(rules: seq<FirewallRule>, direction: string)
    requires AllCompile(rules)
    ensures PlainRules(CodeFor(rules, direction))
  {
    if rules != [] {
      CompiledIsWellFormed(rules[0]);
      CodeForIsPlain(rules[1..], direction);
    }
  }

  lemma AcceptRulesArePlain(rules: seq<FirewallRule>)
    requires AllCompile(rules)
    ensures PlainRules(AcceptRules(rules))
  {
    CodeForIsPlain(rules, "ingress");
    StandingRulesAreWellFormed();
  }

  /** Whether the chain drops a packet does not depend on where its counter stands. */
  lemma {:induction false} VerdictIgnoresCounters(rules: seq<Rule>, a: nat, b: nat, c: nat, d: nat,
                                                  reg: Register, p: Packet)
    requires WellFormedRules(rules)
    ensures WellFormedRules(rules + [TailRule(a, b)]) && WellFormedRules(rules + [TailRule(c, d)])
    ensures Traverse(rules + [TailRule(a, b)], Drop, reg, p) == Traverse(rules + [TailRule(c, d)], Drop, reg, p)
  {
    if rules == [] {
      assert rules + [TailRule(a, b)] == [TailRule(a, b)] && rules + [TailRule(c, d)] == [TailRule(c, d)];
      TailDrops(a, b, reg, p);
      TailDrops(c, d, reg, p);
    } else {
      assert (rules + [TailRule(a, b)])[1..] == rules[1..] + [TailRule(a, b)];
      assert (rules + [TailRule(c, d)])[1..] == rules[1..] + [TailRule(c, d)];
      var end := Run(rules[0], reg, p);
      VerdictIgnoresCounters(rules[1..], a, b, c, d, if end.Stops? then reg else end.reg, p);
    }
  }

  /** One packet turns the installed table into the same table with its counter moved on. */
  lemma PassInstalled(rules: seq<FirewallRule>, packets: nat, bytes: nat, hook: Hook, reg: Register, p: Packet)
    requires AllCompile(rules)
    ensures Pass(TableFor(rules, packets, bytes), hook, reg, p) ==
            if hook.InputHook? && Rejected(rules, reg, p)
            then TableFor(rules, Add64(packets, 1), Add64(bytes, p.size))
            else TableFor(rules, packets, bytes)
  {
    var table := TableFor(rules, packets, bytes);
    AcceptRulesArePlain(rules);
    CodeForIsPlain(rules, "egress");
    if hook.InputHook? {
      TailCountsDrops(AcceptRules(rules), packets, bytes, reg, p);
      VerdictIgnoresCounters(AcceptRules(rules), packets, bytes, 0, 0, reg, p);
      assert Pass(table, hook, reg, p) ==
             [table[0].(rules := TickRules(table[0].rules, reg, p)), table[1]];
    } else {
      PlainRulesTick(CodeFor(rules, "egress"), reg, p);
      assert Pass(table, hook, reg, p) == [table[0], table[1]];
    }
  }

  lemma Add64OfRemainder(a: nat, b: nat)
    ensures Add64(a % COUNTER_MODULUS, b) == (a + b) % COUNTER_MODULUS
  {}

  /** The table with its counter standing at the given drops. */
  function TableAt(rules: seq<FirewallRule>, drops: Drops): seq<Chain>
    requires AllCompile(rules)
  {
    TableFor(rules, drops.packets % COUNTER_MODULUS, drops.bytes % COUNTER_MODULUS)
  }

  /** The table of the last successful call, its counter standing at the packets and bytes rejected since. */
  function InstalledTable(events: seq<Event>): seq<Chain>
    requires LastApplied(events).Some?
  {
    TableAt(LastApplied(events).value, DropsSince(events))
  }

  lemma PassAt(rules: seq<FirewallRule>, drops: Drops, hook: Hook, reg: Register, p: Packet)
    requires AllCompile(rules)
    ensures Pass(TableAt(rules, drops), hook, reg, p) ==
            TableAt(rules, if hook.InputHook? && Rejected(rules, reg, p)
                           then Drops(drops.packets + 1, drops.bytes + p.size) else drops)
  {
    PassInstalled(rules, drops.packets % COUNTER_MODULUS, drops.bytes % COUNTER_MODULUS, hook, reg, p);
    Add64OfRemainder(drops.packets, 1);
    Add64OfRemainder(drops.bytes, p.size);
  }

  /** What a packet adds to a history. */
  lemma DropsAfterPacket(before: seq<Event>, hook: Hook, reg: Register, p: Packet)
    requires LastApplied(before).Some?
    ensures var events, drops := before + [Passed(hook, reg, p)], DropsSince(before);
            && LastApplied(events) == LastApplied(before)
            && DropsSince(events) ==
               if hook.InputHook? && Rejected(LastApplied(before).value, reg, p)
               then Drops(drops.packets + 1, drops.bytes + p.size) else drops
  {
    assert (before + [Passed(hook, reg, p)])[..|before|] == before;
  }

  lemma PacketKeepsInstalledTable(before: seq<Event>, hook: Hook, reg: Register, p: Packet)
    requires LastApplied(before).Some?
    ensures var events := before + [Passed(hook, reg, p)];
            LastApplied(events).Some? && Pass(InstalledTable(before), hook, reg, p) == InstalledTable(events)
  {
    DropsAfterPacket(before, hook, reg, p);
    PassAt(LastApplied(before).value, DropsSince(before), hook, reg, p);
  }

  lemma CallKeepsInstalledTable(now: Ruleset, before: seq<Event>, rules: seq<FirewallRule>, faults: Faults)
    requires LastApplied(before).Some? ==> TABLE in now && now[TABLE] == InstalledTable(before)
    ensures var events, after := before + [Applied(rules, faults)], Reconcile(now, rules, faults);
            LastApplied(events).Some? ==> TABLE in after && after[TABLE] == InstalledTable(events)
  {
    assert (before + [Applied(rules, faults)])[..|before|] == before;
  }

  lemma StepKeepsInstalledTable(now: Ruleset, before: seq<Event>, e: Event)
    requires LastApplied(before).Some? ==> TABLE in now && now[TABLE] == InstalledTable(before)
    ensures LastApplied(before + [e]).Some? ==>
              TABLE in Step(now, e) && Step(now, e)[TABLE] == InstalledTable(before + [e])
  {
    match e
    case Applied(rules, faults) => CallKeepsInstalledTable(now, before, rules, faults);
    case Passed(hook, reg, p) =>
      assert (before + [e])[..|before|] == before;
      if LastApplied(before).Some? {
        PacketKeepsInstalledTable(before, hook, reg, p);
      }
  }

  lemma {:induction false} OtherTablesStay(rs: Ruleset, events: seq<Event>)
    ensures After(rs, events) - {TABLE} == rs - {TABLE}
  {
    if events != [] {
      OtherTablesStay(rs, events[..|events| - 1]);
    }
  }

  /** After any run, from any kernel state: tables other than weft-fw are as they were, and once a
      call has succeeded weft-fw is the table of the last one with the drops since. */
  lemma {:induction false} TableAfter(rs: Ruleset, events: seq<Event>)
    ensures After(rs, events) - {TABLE} == rs - {TABLE}
    ensures LastApplied(events).Some? ==>
              TABLE in After(rs, events) && After(rs, events)[TABLE] == InstalledTable(events)
  {
    OtherTablesStay(rs, events);
    if events != [] {
      var before, e := events[..|events| - 1], events[|events| - 1];
      TableAfter(rs, before);
      assert events == before + [e];
      StepKeepsInstalledTable(After(rs, before), before, e);
    }
  }

  /** The rules that were put on one of the two chains. */
  function Installed(rules: seq<FirewallRule>): nat {
    if rules == [] then 0
    else (if rules[0].direction in {"ingress", "egress"} then 1 else 0) + Installed(rules[1..])
  }

  lemma {:induction false} ValidRulesAreInstalled(rules: seq<FirewallRule>)
    requires AllValid(rules)
    ensures AllCompile(rules) && Installed(rules) == |rules|
  {
    if rules != [] {
      CompilesWhen(rules[0]);
      assert AllValid(rules[1..]);
      ValidRulesAreInstalled(rules[1..]);
      assert forall i | 1 <= i < |rules| :: rules[i] == rules[1..][i - 1];
    }
  }

  lemma {:induction false} CodeForLengths(rules: seq<FirewallRule>)
    requires AllCompile(rules)
    ensures |CodeFor(rules, "ingress")| + |CodeFor(rules, "egress")| == Installed(rules)
  {
    if rules != [] {
      CodeForLengths(rules[1..]);
    }
  }

  lemma {:induction false} CounterFreeHasNoDrops(es: Rule, i: nat)
    requires CounterFree(es) && i <= |es|
    ensures DropCounterFrom(es, i).None?
    decreases |es| - i
  {
    if i < |es| {
      CounterFreeHasNoDrops(es, i + 1);
    }
  }

  lemma {:induction false} PlainRulesAddNoDrops(t: Tally, rules: seq<Rule>)
    requires PlainRules(rules)
    ensures AddDrops(t, rules) == t
  {
    if rules != [] {
      PlainRulesAddNoDrops(t, rules[..|rules| - 1]);
      CounterFreeHasNoDrops(rules[|rules| - 1], 0);
    }
  }

  lemma TallyInstalled(rules: seq<FirewallRule>, packets: nat, bytes: nat)
    requires AllCompile(rules) && packets < COUNTER_MODULUS && bytes < COUNTER_MODULUS
    ensures TallyChains(TableFor(rules, packets, bytes)) == Tally(3 + Installed(rules), packets, bytes)
  {
    var table := TableFor(rules, packets, bytes);
    var front, tail := AcceptRules(rules), TailRule(packets, bytes);
    AcceptRulesArePlain(rules);
    CodeForLengths(rules);
    var counted := Tally(|table[0].rules|, 0, 0);
    PlainRulesAddNoDrops(counted, front);
    assert (front + [tail])[..|front|] == front;
    assert NextVerdict(tail, 1) == Some(Drop);
    assert CountsDrops(tail, 0);
    assert AddDrops(counted, table[0].rules) == counted.(packets := packets, bytes := bytes);
    assert [table[0]][..0] == [];
    assert TallyChains([table[0]]) == counted.(packets := packets, bytes := bytes);
    assert table[..1] == [table[0]];
  }

  /** After any run in which a call has succeeded, a status read reports the standing rules plus the
      installed ones, and the drops since the last successful call, as 64-bit counters. */
  lemma StatusAgreesWithHistory(rs: Ruleset, events: seq<Event>, s: Status)
    requires LastApplied(events).Some?
    requires IsStatusOf(s, After(rs, events), ReadFaults(false, false, false, {}))
    ensures var drops := DropsSince(events);
            s == Status(Healthy, true, 3 + Installed(LastApplied(events).value),
                        drops.packets % 0x1_0000_0000_0000_0000, drops.bytes % 0x1_0000_0000_0000_0000, None)
  {
    var drops := DropsSince(events);
    TableAfter(rs, events);
    TallyInstalled(LastApplied(events).value, drops.packets % COUNTER_MODULUS, drops.bytes % COUNTER_MODULUS);
  }

  /** What counts as rejected is what the code of no rule lets in. */
  lemma RejectedMeansNotLetIn(rules: seq<FirewallRule>, reg: Register, p: Packet)
    requires AllCompile(rules)
    ensures Rejected(rules, reg, p) <==> !CodeAdmits(rules, p)
  {
    InputChainMeaning(rules, 0, 0, reg, p);
  }

  /** Without mapped networks that is what the rules do not admit. */
  lemma RejectedMeansNotAdmitted(rules: seq<FirewallRule>, reg: Register, p: Packet)
    requires AllCompile(rules) && NoneMapped(rules) && p.NamedInterface()
    ensures Rejected(rules, reg, p) <==> !Admitted(rules, p)
  {
    InputChainDecides(rules, 0, 0, reg, p);
  }

  /** Runs that agree on their last successful call and on the packets since leave the same weft-fw
      table, whatever the kernel held and whatever happened before. */
  lemma LastCallDecides(rs: Ruleset, rs': Ruleset, events: seq<Event>, events': seq<Event>)
    requires LastApplied(events).Some? && LastApplied(events) == LastApplied(events')
    requires DropsSince(events) == DropsSince(events')
    ensures TABLE in After(rs, events) && TABLE in After(rs', events')
    ensures After(rs, events)[TABLE] == After(rs', events')[TABLE]
  {
    TableAfter(rs, events);
    TableAfter(rs', events');
  }

  /** A run without its failed calls. */
  function Effective(events: seq<Event>): seq<Event> {
    if events == [] then []
    else
      var e := events[|events| - 1];
      Effective(events[..|events| - 1]) + if e.Applied? && !Succeeds(e.rules, e.faults) then [] else [e]
  }

  /** Calls that fail leave no trace, wherever in a run they come: neither in the kernel nor in the last
      call and the drops that a status read reports. */
  lemma {:induction false} FailedCallsLeaveNoTrace(rs: Ruleset, events: seq<Event>)
    ensures After(rs, events) == After(rs, Effective(events))
    ensures LastApplied(events) == LastApplied(Effective(events))
    ensures DropsSince(events) == DropsSince(Effective(events))
  {
    if events != [] {
      var before, e := events[..|events| - 1], events[|events| - 1];
      FailedCallsLeaveNoTrace(rs, before);
      if !(e.Applied? && !Succeeds(e.rules, e.faults)) {
        assert (Effective(before) + [e])[..|Effective(before)|] == Effective(before);
      } else {
        assert Effective(before) + [] == Effective(before);
      }
    }
  }

  /** Applying a ruleset again, whatever happened in between, gives the kernel state that it gave the first
      time: its rules, and its drop counter back at zero. */
  lemma ReapplyResetsOnlyTheCounter(rs: Ruleset, rules: seq<FirewallRule>, faults: Faults, faults': Faults,
                                    between: seq<Event>)
    requires Succeeds(rules, faults) && Succeeds(rules, faults')
    ensures var once := Step(rs, Applied(rules, faults));
            Step(After(once, between), Applied(rules, faults')) == once
  {
    var once := Step(rs, Applied(rules, faults));
    TableAfter(once, between);
    SameButForTheTable(After(once, between), once);
  }

  lemma SameButForTheTable(now: Ruleset, was: Ruleset)
    requires TABLE in was && now - {TABLE} == was - {TABLE}
    ensures now[TABLE := was[TABLE]] == was
  {
    assert now[TABLE := was[TABLE]] == (now - {TABLE})[TABLE := was[TABLE]];
    assert was == (was - {TABLE})[TABLE := was[TABLE]];
  }
}
