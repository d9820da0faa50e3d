/** What the installed chains decide for a packet, and what they mean. */
module FirewallChains {
  import opened Common
  import opened Bytes
  import opened Nft
  import opened PodFirewall
  import opened FirewallCompiler
  import opened FirewallApply

  /** Conntrack says the packet belongs to, or is related to, a connection it has seen. */
  predicate EstablishedOrRelated(p: Packet) {
    p.ctState / CT_ESTABLISHED % 2 == 1 || p.ctState / CT_RELATED % 2 == 1
  }

  /** The packets the ruleset is meant to let in. */
  predicate Admitted(rules: seq<FirewallRule>, p: Packet) {
    || EstablishedOrRelated(p)
    || p.iif == LOOPBACK
    || SomeAllows(rules, "ingress", p)
  }

  predicate SomeAllows(rules: seq<FirewallRule>, direction: string, p: Packet) {
    exists i | 0 <= i < |rules| :: rules[i].direction == direction && Allows(rules[i], p)
  }

  /** The interface name, as loaded and cut to 16 bytes, compares equal to that of the loopback interface. */
  predicate LoadsAsLoopback(p: Packet) {
    LoadedIfname(p.iif) == NftIfname(LOOPBACK)
  }

  predicate SomeCodeAllows(rules: seq<FirewallRule>, direction: string, p: Packet)
    requires AllCompile(rules)
  {
    exists i | 0 <= i < |rules| :: rules[i].direction == direction && CodeAllows(rules[i], p)
  }

  /** The packets the installed code lets in, for every list of rules that compile. */
  predicate CodeAdmits(rules: seq<FirewallRule>, p: Packet)
    requires AllCompile(rules)
  {
    EstablishedOrRelated(p) || LoadsAsLoopback(p) || SomeCodeAllows(rules, "ingress", p)
  }

  lemma SomeCodeAllowsHead(rules: seq<FirewallRule>, direction: string, p: Packet)
    requires rules != [] && AllCompile(rules)
    ensures SomeCodeAllows(rules, direction, p) <==>
            (rules[0].direction == direction && CodeAllows(rules[0], p)) || SomeCodeAllows(rules[1..], direction, p)
  {
    if SomeCodeAllows(rules, direction, p) {
      var i :| 0 <= i < |rules| && rules[i].direction == direction && CodeAllows(rules[i], p);
      assert i > 0 ==> rules[i] == rules[1..][i - 1];
    }
    if SomeCodeAllows(rules[1..], direction, p) {
      var i :| 0 <= i < |rules| - 1 && rules[1..][i].direction == direction && CodeAllows(rules[1..][i], p);
      assert rules[i + 1] == rules[1..][i];
    }
  }

  /** The compiler understands every rule: none has an IPv6 network it takes for an IPv4 one. */
  predicate NoneMapped(rules: seq<FirewallRule>) {
    forall i | 0 <= i < |rules| :: !MappedRemote(rules[i])
  }

  lemma AndWithSix(b: Byte)
    ensures And(b, 6) == 0 <==> b / 2 % 2 == 0 && b / 4 % 2 == 0
  {
    assert And(b / 4, 1) == b / 4 % 2;
    assert And(b / 2, 3) == 2 * And(b / 4, 1) + b / 2 % 2;
  }

  /** Masking the loaded state leaves the established and related bits. */
  lemma MaskedState(reg: Register, state: seq<Byte>, p: Packet)
    requires |state| == 4 && reg[..4] == state
    ensures var step := Exec(Bitwise([6, 0, 0, 0], Zeros(4)), reg, p);
            step.Next? && step.reg[..4] == [And(state[0], 6), 0, 0, 0]
  {
    XorZero(reg, [6, 0, 0, 0]);
  }

  lemma StateBits(v: Uint32)
    ensures var low := LE32(v)[0];
            low / 2 % 2 == v / 2 % 2 && low / 4 % 2 == v / 4 % 2
  {
    var w := v % 0x1_0000;
    assert v == 8 * (0x2000 * (v / 0x1_0000)) + w;
    assert w == 8 * (0x20 * (w / 0x100)) + w % 0x100;
    LowBits(0x2000 * (v / 0x1_0000), w);
    LowBits(0x20 * (w / 0x100), w % 0x100);
  }

  lemma LowBits(h: nat, l: nat)
    ensures (8 * h + l) / 2 % 2 == l / 2 % 2 && (8 * h + l) / 4 % 2 == l / 4 % 2
  {
    Halve(4 * h, l);
    Halve(2 * h, l / 2);
    Halve(h, l / 2 / 2);
    assert (8 * h + l) / 4 == (8 * h + l) / 2 / 2 && l / 4 == l / 2 / 2;
  }

  lemma Halve(h: nat, l: nat)
    ensures (2 * h + l) / 2 == h + l / 2 && (2 * h + l) % 2 == l % 2
  {}

  /** Masking the loaded state leaves something iff an accepted bit is set. */
  lemma CtTest(reg: Register, p: Packet)
    ensures var step := Exec(Bitwise([6, 0, 0, 0], Zeros(4)), Store(reg, LE32(p.ctState)), p);
            step.Next? && (step.reg[..4] == Zeros(4) <==> !EstablishedOrRelated(p))
  {
    var state := LE32(p.ctState);
    MaskedState(Store(reg, state), state, p);
    StateBits(p.ctState);
    AndWithSix(state[0]);
    assert [And(state[0], 6), 0, 0, 0] == Zeros(4) <==> And(state[0], 6) == 0;
  }

  lemma CtRuleMeaning(reg: Register, p: Packet)
    ensures WellFormedRule(CtEstablishedAccept())
    ensures var end := Run(CtEstablishedAccept(), reg, p);
            if EstablishedOrRelated(p) then end == Stops(Accept) else end.Breaks?
  {
    var bits, cmp, accept := Bitwise([6, 0, 0, 0], Zeros(4)), Cmp(Neq, Zeros(4)), Verdict(Accept);
    var last := [accept] + [];
    var two := [cmp] + last;
    var three := [bits] + two;
    CtRuleShape(three);
    var loaded := Store(reg, LE32(p.ctState));
    CtTest(reg, p);
    var step := Exec(bits, loaded, p);
    RunCons(accept, [], step.reg, p);
    RunCons(cmp, last, step.reg, p);
    RunCons(bits, two, loaded, p);
    RunCons(CtState, three, reg, p);
  }

  lemma CtRuleShape(three: Rule)
    requires three == [Bitwise([6, 0, 0, 0], Zeros(4))] + ([Cmp(Neq, Zeros(4))] + ([Verdict(Accept)] + []))
    ensures CtEstablishedAccept() == [CtState] + three
  {
    assert LE32(CT_ESTABLISHED + CT_RELATED) == [6, 0, 0, 0];
  }

  /** NUL padding keeps different interface names different. */
  lemma PaddedNames(name: seq<Byte>, other: seq<Byte>)
    requires |name| < 16 && (forall i | 0 <= i < |name| :: name[i] != 0)
    requires |other| < 16 && (forall i | 0 <= i < |other| :: other[i] != 0)
    ensures name + Zeros(16 - |name|) == other + Zeros(16 - |other|) <==> name == other
  {
    var a, b := name + Zeros(16 - |name|), other + Zeros(16 - |other|);
    assert |name| < |other| ==> a[|name|] == 0 && b[|name|] == other[|name|];
    assert |other| < |name| ==> b[|other|] == 0 && a[|other|] == name[|other|];
    if a == b {
      assert name == a[..|name|] && other == b[..|other|];
    }
  }

  lemma LoopbackRuleTests(reg: Register, p: Packet)
    ensures WellFormedRule(IifAccept(LOOPBACK))
    ensures var end := Run(IifAccept(LOOPBACK), reg, p);
            if LoadsAsLoopback(p) then end == Stops(Accept) else end.Breaks?
  {
    var cmp, accept := Cmp(Eq, NftIfname(LOOPBACK)), Verdict(Accept);
    assert IifAccept(LOOPBACK) == [Meta(IifName)] + ([cmp] + ([accept] + []));
    var loaded := Store(reg, LoadedIfname(p.iif));
    RunCons(accept, [], loaded, p);
    RunCons(cmp, [accept] + [], loaded, p);
    RunCons(Meta(IifName), [cmp] + ([accept] + []), reg, p);
  }

  lemma LoopbackRuleMeaning(reg: Register, p: Packet)
    requires p.NamedInterface()
    ensures WellFormedRule(IifAccept(LOOPBACK))
    ensures var end := Run(IifAccept(LOOPBACK), reg, p);
            if p.iif == LOOPBACK then end == Stops(Accept) else end.Breaks?
  {
    LoopbackRuleTests(reg, p);
    PaddedNames(p.iif, LOOPBACK);
  }

  lemma {:induction false} CodeForIsWellFormed(rules: seq<FirewallRule>, direction: string)
    requires AllCompile(rules)
    ensures WellFormedRules(CodeFor(rules, direction))
  {
    if rules != [] {
      CompiledIsWellFormed(rules[0]);
      CodeForIsWellFormed(rules[1..], direction);
    }
  }

  /** The compiled rules in front of a chain accept what one of them allows, and leave the rest of
      the chain to decide otherwise. */
  lemma {:induction false} RulesMeaning(rules: seq<FirewallRule>, direction: string, rest: seq<Rule>,
                                        policy: VerdictKind, reg: Register, p: Packet) returns (after: Register)
    requires AllCompile(rules) && WellFormedRules(rest)
    ensures WellFormedRules(CodeFor(rules, direction) + rest)
    ensures Traverse(CodeFor(rules, direction) + rest, policy, reg, p) ==
            if SomeCodeAllows(rules, direction, p) then Accept else Traverse(rest, policy, after, p)
  {
    CodeForIsWellFormed(rules, direction);
    var code := CodeFor(rules, direction) + rest;
    if rules == [] {
      assert code == rest;
      after := reg;
    } else {
      SomeCodeAllowsHead(rules, direction, p);
      var others := CodeFor(rules[1..], direction) + rest;
      CodeForIsWellFormed(rules[1..], direction);
      assert WellFormedRules(others);
      if rules[0].direction == direction {
        HeadOfCode(rules, direction, rest);
        var next := HeadRuleMeaning(rules[0], others, policy, reg, p);
        after := RulesMeaning(rules[1..], direction, rest, policy, next, p);
      } else {
        assert code == others;
        after := RulesMeaning(rules[1..], direction, rest, policy, reg, p);
      }
    }
  }

  lemma HeadOfCode(rules: seq<FirewallRule>, direction: string, rest: seq<Rule>)
    requires AllCompile(rules) && rules != [] && rules[0].direction == direction
    ensures CodeFor(rules, direction) + rest == [Compile(rules[0]).value] + (CodeFor(rules[1..], direction) + rest)
  {
  }

  lemma HeadRuleMeaning(r: FirewallRule, others: seq<Rule>, policy: VerdictKind, reg: Register, p: Packet)
      returns (next: Register)
    requires Compiles(r) && WellFormedRules(others)
    ensures WellFormedRules([Compile(r).value] + others)
    ensures Traverse([Compile(r).value] + others, policy, reg, p) ==
            if CodeAllows(r, p) then Accept else Traverse(others, policy, next, p)
  {
    CompiledCodeMeaning(r, reg, p);
    next := HeadVerdict(Compile(r).value, CodeAllows(r, p), others, policy, reg, p);
  }

  lemma HeadVerdict(code: Rule, allowed: bool, others: seq<Rule>, policy: VerdictKind, reg: Register, p: Packet)
      returns (next: Register)
    requires WellFormedRule(code) && WellFormedRules(others)
    requires if allowed then Run(code, reg, p) == Stops(Accept) else Run(code, reg, p).Breaks?
    ensures WellFormedRules([code] + others)
    ensures Traverse([code] + others, policy, reg, p) ==
            if allowed then Accept else Traverse(others, policy, next, p)
  {
    TraverseCons(code, others, policy, reg, p);
    next := if allowed then reg else Run(code, reg, p).reg;
  }

  lemma TraverseCons(own: Rule, others: seq<Rule>, policy: VerdictKind, reg: Register, p: Packet)
    requires WellFormedRule(own) && WellFormedRules(others)
    ensures WellFormedRules([own] + others)
    ensures var end := Run(own, reg, p);
            Traverse([own] + others, policy, reg, p) ==
            if end.Stops? then end.kind else Traverse(others, policy, end.reg, p)
  {
    assert ([own] + others)[1..] == others;
  }

  /** The whole input chain, for every list of rules that compile and every packet: a packet gets in iff
      conntrack knows it, its interface loads as lo, or the code of some ingress rule accepts it. */
  lemma InputChainMeaning(rules: seq<FirewallRule>, packets: nat, bytes: nat, reg: Register, p: Packet)
    requires AllCompile(rules)
    ensures WellFormedRules(InputRules(rules, packets, bytes))
    ensures Traverse(InputRules(rules, packets, bytes), Drop, reg, p) ==
            if CodeAdmits(rules, p) then Accept else Drop
  {
    CodeForIsWellFormed(rules, "ingress");
    var tail := [TailRule(packets, bytes)];
    var code := CodeFor(rules, "ingress") + tail;
    var chain := InputRules(rules, packets, bytes);
    assert chain == [CtEstablishedAccept()] + ([IifAccept(LOOPBACK)] + code);
    StandingRulesAreWellFormed();
    assert WellFormedRules(chain);
    CtRuleMeaning(reg, p);
    TraverseCons(CtEstablishedAccept(), [IifAccept(LOOPBACK)] + code, Drop, reg, p);
    var first := Run(CtEstablishedAccept(), reg, p);
    if first.Breaks? {
      LoopbackRuleTests(first.reg, p);
      TraverseCons(IifAccept(LOOPBACK), code, Drop, first.reg, p);
      var second := Run(IifAccept(LOOPBACK), first.reg, p);
      if second.Breaks? {
        var after := RulesMeaning(rules, "ingress", tail, Drop, second.reg, p);
        TailDrops(packets, bytes, after, p);
      }
    }
  }

  /** With interface names as the kernel makes them and no network taken for a mapped one, what the code
      lets in is what the rules mean. */
  lemma CodeAdmitsWhatIsMeant(rules: seq<FirewallRule>, p: Packet)
    requires AllCompile(rules) && NoneMapped(rules) && p.NamedInterface()
    ensures CodeAdmits(rules, p) <==> Admitted(rules, p)
  {
    PaddedNames(p.iif, LOOPBACK);
    forall i | 0 <= i < |rules| ensures CodeAllows(rules[i], p) <==> Allows(rules[i], p) {
      TestIsMatch(rules[i], p);
    }
  }

  /** So the input chain lets a packet in iff conntrack knows it, it came over loopback, or some ingress
      rule allows it. */
  lemma InputChainDecides(rules: seq<FirewallRule>, packets: nat, bytes: nat, reg: Register, p: Packet)
    requires AllCompile(rules) && NoneMapped(rules) && p.NamedInterface()
    ensures WellFormedRules(InputRules(rules, packets, bytes))
    ensures Traverse(InputRules(rules, packets, bytes), Drop, reg, p) ==
            if Admitted(rules, p) then Accept else Drop
  {
    InputChainMeaning(rules, packets, bytes, reg, p);
    CodeAdmitsWhatIsMeant(rules, p);
  }

  lemma TailDrops(packets: nat, bytes: nat, reg: Register, p: Packet)
    ensures WellFormedRules([TailRule(packets, bytes)])
    ensures Run(TailRule(packets, bytes), reg, p) == Stops(Drop)
    ensures Traverse([TailRule(packets, bytes)], Drop, reg, p) == Drop
  {
    var drop := Verdict(Drop);
    assert TailRule(packets, bytes) == [Counter(packets, bytes)] + ([drop] + []);
    RunCons(drop, [], reg, p);
    RunCons(Counter(packets, bytes), [drop] + [], reg, p);
  }

  /** The order of the rules does not matter. */
  lemma InputVerdictIgnoresOrder(rules: seq<FirewallRule>, permuted: seq<FirewallRule>, packets: nat, bytes: nat,
                                 reg: Register, reg': Register, p: Packet)
    requires multiset(rules) == multiset(permuted) && AllCompile(rules)
    ensures AllCompile(permuted)
    ensures WellFormedRules(InputRules(rules, packets, bytes)) && WellFormedRules(InputRules(permuted, packets, bytes))
    ensures Traverse(InputRules(rules, packets, bytes), Drop, reg, p) ==
            Traverse(InputRules(permuted, packets, bytes), Drop, reg', p)
  {
    SameElements(rules, permuted);
    SameElements(permuted, rules);
    assert forall i | 0 <= i < |permuted| :: permuted[i] in rules;
    InputChainMeaning(rules, packets, bytes, reg, p);
    InputChainMeaning(permuted, packets, bytes, reg', p);
    SubsetAdmits(rules, permuted, p);
    SubsetAdmits(permuted, rules, p);
  }

  lemma SameElements(a: seq<FirewallRule>, b: seq<FirewallRule>)
    requires multiset(a) == multiset(b)
    ensures forall r | r in a :: r in b
  {
    forall r | r in a ensures r in b {
      assert r in multiset(a);
    }
  }

  lemma SubsetAdmits(a: seq<FirewallRule>, b: seq<FirewallRule>, p: Packet)
    requires AllCompile(a) && AllCompile(b) && forall r | r in a :: r in b
    ensures CodeAdmits(a, p) ==> CodeAdmits(b, p)
  {
    if SomeCodeAllows(a, "ingress", p) {
      var i :| 0 <= i < |a| && a[i].direction == "ingress" && CodeAllows(a[i], p);
      assert a[i] in b;
      var j :| 0 <= j < |b| && b[j] == a[i];
    }
  }

  /** Adding rules, wherever they go, never shuts a packet out. */
  lemma MoreRulesAdmitMore(rules: seq<FirewallRule>, larger: seq<FirewallRule>, packets: nat, bytes: nat,
                           reg: Register, reg': Register, p: Packet)
    requires (forall r | r in rules :: r in larger) && AllCompile(larger)
    ensures AllCompile(rules)
    ensures WellFormedRules(InputRules(rules, packets, bytes)) && WellFormedRules(InputRules(larger, packets, bytes))
    ensures Traverse(InputRules(rules, packets, bytes), Drop, reg, p) == Accept ==>
            Traverse(InputRules(larger, packets, bytes), Drop, reg', p) == Accept
  {
    assert forall i | 0 <= i < |rules| :: rules[i] in larger;
    InputChainMeaning(rules, packets, bytes, reg, p);
    InputChainMeaning(larger, packets, bytes, reg', p);
    SubsetAdmits(rules, larger, p);
  }

  predicate OnlyAccepts(es: Rule) {
    forall i | 0 <= i < |es| :: es[i].Verdict? ==> es[i].kind == Accept
  }

  lemma {:induction false} OnlyAcceptsRun(es: Rule, reg: Register, p: Packet)
    requires WellFormedRule(es) && OnlyAccepts(es)
    ensures Run(es, reg, p).Stops? ==> Run(es, reg, p).kind == Accept
  {
    if es != [] {
      var e := Exec(es[0], reg, p);
      if e.Next? {
        OnlyAcceptsRun(es[1..], e.reg, p);
      }
    }
  }

  /** Compiled rules never drop: where the policy accepts, every packet passes. */
  lemma {:induction false} EgressRulesNeverDrop(rules: seq<FirewallRule>, reg: Register, p: Packet)
    requires AllCompile(rules)
    ensures WellFormedRules(CodeFor(rules, "egress"))
    ensures Traverse(CodeFor(rules, "egress"), Accept, reg, p) == Accept
  {
    CodeForIsWellFormed(rules, "egress");
    var code := CodeFor(rules, "egress");
    if rules == [] {
    } else if rules[0].direction == "egress" {
      CompiledIsWellFormed(rules[0]);
      assert code[0] == Compile(rules[0]).value && code[1..] == CodeFor(rules[1..], "egress");
      OnlyAcceptsRun(code[0], reg, p);
      var end := Run(code[0], reg, p);
      if !end.Stops? {
        EgressRulesNeverDrop(rules[1..], end.reg, p);
      }
    } else {
      assert code == CodeFor(rules[1..], "egress");
      EgressRulesNeverDrop(rules[1..], reg, p);
    }
  }

  /** The output chain of the table, with its own policy, lets everything out whatever its rules. */
  lemma OutputChainAcceptsAll(rules: seq<FirewallRule>, packets: nat, bytes: nat, reg: Register, p: Packet)
    requires AllCompile(rules)
    ensures var table := TableFor(rules, packets, bytes);
            && |table| == 2 && table[1].name == "output" && table[1].hook == OutputHook
            && WellFormedRules(table[1].rules)
            && Traverse(table[1].rules, table[1].policy, reg, p) == Accept
  {
    EgressRulesNeverDrop(rules, reg, p);
  }

  /** An interface loads as lo iff its name is lo, but for what stands behind a NUL or behind 15 bytes; and
      conntrack's bits for established and related are the second and the third. */
  lemma StandingTestsInNumbers(p: Packet)
    ensures LoadsAsLoopback(p) <==>
            && |p.iif| >= 2 && p.iif[0] == 0x6C && p.iif[1] == 0x6F
            && forall i | 2 <= i < |p.iif| && i < 15 :: p.iif[i] == 0
    ensures EstablishedOrRelated(p) <==> p.ctState / 2 % 2 == 1 || p.ctState / 4 % 2 == 1
  {
    var lo, name := NftIfname(LOOPBACK), LoadedIfname(p.iif);
    assert lo[0] == 0x6C && lo[1] == 0x6F && forall i | 2 <= i < 16 :: lo[i] == 0;
    if |p.iif| >= 2 && p.iif[0] == 0x6C && p.iif[1] == 0x6F && forall i | 2 <= i < |p.iif| && i < 15 :: p.iif[i] == 0 {
      assert forall i | 0 <= i < 16 :: name[i] == lo[i];
    }
    assert |p.iif| < 2 ==> name[1] == 0;
    if name == lo {
      assert forall i | 0 <= i < |p.iif| && i < 15 :: p.iif[i] == name[i];
    }
  }
}
