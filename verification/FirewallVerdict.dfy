/** What a packet meets at a hook of the kernel, whatever calls and packets came before. */
module FirewallVerdict {
  import opened Common
  import opened Nft
  import opened PodFirewall
  import opened FirewallCompiler
  import opened FirewallApply
  import opened FirewallChains
  import opened FirewallStatus
  import opened FirewallHistory

  /** What a further call adds to a history: it counts as the last one, and clears the drops, iff no call into the
      kernel fails and every rule compiles. */
  lemma OneMoreCall(events: seq<Event>, rules: seq<FirewallRule>, faults: Faults)
    ensures var more := events + [Applied(rules, faults)];
            if !faults.open && !faults.list && !faults.flush && forall r | r in rules :: Compile(r).Ok?
            then LastApplied(more) == Some(rules) && DropsSince(more) == Drops(0, 0)
            else LastApplied(more) == LastApplied(events) && DropsSince(more) == DropsSince(events)
  {
    assert (events + [Applied(rules, faults)])[..|events|] == events;
    if forall r | r in rules :: Compile(r).Ok? {
      assert forall i | 0 <= i < |rules| :: rules[i] in rules;
    }
  }

  predicate Usable(chains: seq<Chain>) {
    forall i | 0 <= i < |chains| :: WellFormedRules(chains[i].rules)
  }

  /** A packet passes a hook unless one of the chains on it drops it; each chain has its own policy. */
  predicate DroppedAt(chains: seq<Chain>, hook: Hook, reg: Register, p: Packet)
    requires Usable(chains)
  {
    exists i | 0 <= i < |chains| ::
      chains[i].hook == hook && Traverse(chains[i].rules, chains[i].policy, reg, p) == Drop
  }

  /** The code of some rule of one direction accepts the packet. */
  ghost predicate SomeCodeAccepts(rules: seq<FirewallRule>, direction: string, reg: Register, p: Packet) {
    exists i | 0 <= i < |rules| :: rules[i].direction == direction && CodeAccepts(rules[i], reg, p)
  }

  ghost predicate CodeAccepts(r: FirewallRule, reg: Register, p: Packet) {
    Compiles(r) && WellFormedRule(Compile(r).value) && Run(Compile(r).value, reg, p) == Stops(Accept)
  }

  lemma CodeAcceptsWhatItAllows(rules: seq<FirewallRule>, direction: string, reg: Register, p: Packet)
    requires AllCompile(rules)
    ensures SomeCodeAccepts(rules, direction, reg, p) <==> SomeCodeAllows(rules, direction, p)
  {
    forall i | 0 <= i < |rules| ensures CodeAccepts(rules[i], reg, p) <==> CodeAllows(rules[i], p) {
      CompiledCodeMeaning(rules[i], reg, p);
    }
  }

  /** The verdicts of the table at its two hooks. */
  lemma TableVerdicts(rules: seq<FirewallRule>, packets: nat, bytes: nat, reg: Register, p: Packet)
    requires AllCompile(rules)
    ensures var table := TableFor(rules, packets, bytes);
            && Usable(table)
            && !DroppedAt(table, OutputHook, reg, p)
            && (DroppedAt(table, InputHook, reg, p) <==> !CodeAdmits(rules, p))
  {
    var table := TableFor(rules, packets, bytes);
    InputChainMeaning(rules, packets, bytes, reg, p);
    OutputChainAcceptsAll(rules, packets, bytes, reg, p);
    assert table[0].policy == Drop && table[0].hook == InputHook;
  }

  /** After any run, from any kernel state, in which a call has succeeded: no packet is turned away on its way
      out, and one is let in iff conntrack says established or related, or it came over lo, or the code of an
      ingress rule of the last successful call accepts it, whatever the register holds at first. */
  lemma VerdictAfter(rs: Ruleset, events: seq<Event>, reg: Register, p: Packet)
    requires LastApplied(events).Some?
    ensures var now, table := After(rs, events), TableId(Inet, "weft-fw");
            && table in now && Usable(now[table])
            && !DroppedAt(now[table], OutputHook, reg, p)
            && (!DroppedAt(now[table], InputHook, reg, p) <==>
                || p.ctState / 2 % 2 == 1 || p.ctState / 4 % 2 == 1
                || (&& |p.iif| >= 2 && p.iif[0] == 0x6C && p.iif[1] == 0x6F
                    && forall i | 2 <= i < |p.iif| && i < 15 :: p.iif[i] == 0)
                || SomeCodeAccepts(LastApplied(events).value, "ingress", reg, p))
  {
    var rules, drops := LastApplied(events).value, DropsSince(events);
    TableAfter(rs, events);
    TableVerdicts(rules, drops.packets % COUNTER_MODULUS, drops.bytes % COUNTER_MODULUS, reg, p);
    StandingTestsInNumbers(p);
    CodeAcceptsWhatItAllows(rules, "ingress", reg, p);
  }

  /** With interface names as the kernel makes them and no network taken for a mapped one, that is what the
      rules mean. */
  lemma VerdictIsMeaning(rs: Ruleset, events: seq<Event>, reg: Register, p: Packet)
    requires LastApplied(events).Some? && NoneMapped(LastApplied(events).value) && p.NamedInterface()
    ensures var now, table := After(rs, events), TableId(Inet, "weft-fw");
            && table in now && Usable(now[table])
            && (!DroppedAt(now[table], InputHook, reg, p) <==>
                || p.ctState / 2 % 2 == 1 || p.ctState / 4 % 2 == 1
                || p.iif == [0x6C, 0x6F]
                || exists i | 0 <= i < |LastApplied(events).value| ::
                     var r := LastApplied(events).value[i]; r.direction == "ingress" && Allows(r, p))
  {
    var rules := LastApplied(events).value;
    VerdictAfter(rs, events, reg, p);
    StandingTestsInNumbers(p);
    CodeAcceptsWhatItAllows(rules, "ingress", reg, p);
    CodeAdmitsWhatIsMeant(rules, p);
  }

  /** The drops that a status read reports are the packets that the input hook has turned away. */
  lemma DropsAreVerdicts(rs: Ruleset, events: seq<Event>, hook: Hook, reg: Register, p: Packet)
    requires LastApplied(events).Some?
    ensures var now, table := After(rs, events), TableId(Inet, "weft-fw");
            && table in now && Usable(now[table])
            && var more := DropsSince(events + [Passed(hook, reg, p)]);
            if DroppedAt(now[table], hook, reg, p)
            then more == Drops(DropsSince(events).packets + 1, DropsSince(events).bytes + p.size)
            else more == DropsSince(events)
  {
    var rules, drops := LastApplied(events).value, DropsSince(events);
    TableAfter(rs, events);
    TableVerdicts(rules, drops.packets % COUNTER_MODULUS, drops.bytes % COUNTER_MODULUS, reg, p);
    RejectedMeansNotLetIn(rules, reg, p);
    DropsAfterPacket(events, hook, reg, p);
  }

  /** Until a call succeeds, a kernel without the table stays without it, and a status read says healthy, not
      installed, and nothing counted. */
  lemma IdleStatus(rs: Ruleset, events: seq<Event>, s: Status)
    requires LastApplied(events).None? && TableId(Inet, "weft-fw") !in rs
    requires IsStatusOf(s, After(rs, events), ReadFaults(false, false, false, {}))
    ensures After(rs, events) == rs
    ensures s == Status(Healthy, false, 0, 0, 0, None)
  {
    NothingApplied(rs, events);
  }

  lemma {:induction false} NothingApplied(rs: Ruleset, events: seq<Event>)
    requires LastApplied(events).None? && TableId(Inet, "weft-fw") !in rs
    ensures After(rs, events) == rs
  {
    if events != [] {
      NothingApplied(rs, events[..|events| - 1]);
    }
  }
}
