/** ApplyFirewall: the whole-state replacement of the weft-fw table, and what its chains decide. */
module FirewallApply {
  import opened Common
  import opened Bytes
  import opened Nft
  import opened PodFirewall
  import opened FirewallCompiler

  const TABLE: TableId := TableId(Inet, "weft-fw")

  const CT_ESTABLISHED: Uint32 := 2
  const CT_RELATED: Uint32 := 4

  /** The name "lo" in ASCII. */
  const LOOPBACK: seq<Byte> := [0x6C, 0x6F]

  /** A 16-byte buffer the name is copied into. */
  function NftIfname(name: seq<Byte>): (s: seq<Byte>)
    ensures |s| == 16
  {
    if |name| < 16 then name + Zeros(16 - |name|) else name[..16]
  }

  function CtEstablishedAccept(): Rule {
    [CtState, Bitwise(LE32(CT_ESTABLISHED + CT_RELATED), Zeros(4)), Cmp(Neq, Zeros(4)), Verdict(Accept)]
  }

  function IifAccept(name: seq<Byte>): Rule {
    [Meta(IifName), Cmp(Eq, NftIfname(name)), Verdict(Accept)]
  }

  function TailRule(packets: nat, bytes: nat): Rule {
    [Counter(packets, bytes), Verdict(Drop)]
  }

  /** The code of the rules of one direction, in order. */
  function CodeFor(rules: seq<FirewallRule>, direction: string): seq<Rule>
    requires AllCompile(rules)
  {
    if rules == [] then []
    else
      (if rules[0].direction == direction then [Compile(rules[0]).value] else []) + CodeFor(rules[1..], direction)
  }

  lemma PartsCompile(a: seq<FirewallRule>, b: seq<FirewallRule>)
    ensures AllCompile(a + b) <==> AllCompile(a) && AllCompile(b)
  {
    if AllCompile(a + b) {
      assert forall i | 0 <= i < |a| :: a[i] == (a + b)[i];
      assert forall i | 0 <= i < |b| :: b[i] == (a + b)[|a| + i];
    }
  }

  lemma {:induction false} CodeForParts(a: seq<FirewallRule>, b: seq<FirewallRule>, direction: string)
    requires AllCompile(a) && AllCompile(b)
    ensures AllCompile(a + b) && CodeFor(a + b, direction) == CodeFor(a, direction) + CodeFor(b, direction)
  {
    if b == [] {
      assert a + b == a;
    } else {
      var front, last := b[..|b| - 1], b[|b| - 1];
      assert a + b == (a + front) + [last] && b == front + [last];
      PartsCompile(front, [last]);
      PartsCompile(a, front);
      CodeForParts(a, front, direction);
      CodeForOneMore(a + front, last, direction);
      CodeForOneMore(front, last, direction);
    }
  }

  /** The code of a list is that of its parts, one rule gives its own code to its own direction, and none to any
      other: so the rules keep their order on either chain. */
  lemma CodeKeepsOrder(a: seq<FirewallRule>, r: FirewallRule, b: seq<FirewallRule>, direction: string)
    requires AllCompile(a) && Compiles(r) && AllCompile(b)
    ensures AllCompile(a + [r]) && AllCompile(a + [r] + b)
    ensures CodeFor([], direction) == []
    ensures CodeFor(a + [r], direction) ==
            CodeFor(a, direction) + if r.direction == direction then [Compile(r).value] else []
    ensures CodeFor(a + [r] + b, direction) == CodeFor(a + [r], direction) + CodeFor(b, direction)
  {
    assert AllCompile([r]);
    assert [r][1..] == [];
    CodeForParts(a, [r], direction);
    CodeForParts(a + [r], b, direction);
  }

  predicate AllCompile(rules: seq<FirewallRule>) {
    forall i | 0 <= i < |rules| :: Compiles(rules[i])
  }

  /** The input chain up to the tail rule, and with it. */
  function AcceptRules(rules: seq<FirewallRule>): seq<Rule>
    requires AllCompile(rules)
  {
    [CtEstablishedAccept(), IifAccept(LOOPBACK)] + CodeFor(rules, "ingress")
  }

  function InputRules(rules: seq<FirewallRule>, packets: nat, bytes: nat): seq<Rule>
    requires AllCompile(rules)
  {
    AcceptRules(rules) + [TailRule(packets, bytes)]
  }

  /** The table of a ruleset whose drop counter stands at the given values. */
  function TableFor(rules: seq<FirewallRule>, packets: nat, bytes: nat): seq<Chain>
    requires AllCompile(rules)
  {
    [Chain("input", InputHook, Drop, InputRules(rules, packets, bytes)),
     Chain("output", OutputHook, Accept, CodeFor(rules, "egress"))]
  }

  /** Which of the calls into the kernel fail. */
  datatype Faults = Faults(open: bool, list: bool, flush: bool)

  datatype ApplyError = OpenFailed | ListFailed | BuildFailed(e: CompileError) | FlushFailed

  predicate Succeeds(rules: seq<FirewallRule>, faults: Faults) {
    !faults.open && !faults.list && !faults.flush && AllCompile(rules)
  }

  /** The outcome of one call: the table replaced by a fresh one, or nothing changed at all. */
  function Reconcile(rs: Ruleset, rules: seq<FirewallRule>, faults: Faults): Ruleset {
    if Succeeds(rules, faults) then rs[TABLE := TableFor(rules, 0, 0)] else rs
  }

  /** The table while the rules are being added: no tail rule yet. */
  function PartialTable(rules: seq<FirewallRule>): seq<Chain>
    requires AllCompile(rules)
  {
    [Chain("input", InputHook, Drop, AcceptRules(rules)),
     Chain("output", OutputHook, Accept, CodeFor(rules, "egress"))]
  }

  lemma {:induction false} CodeForOneMore(rules: seq<FirewallRule>, r: FirewallRule, direction: string)
    requires AllCompile(rules) && Compiles(r)
    ensures AllCompile(rules + [r])
    ensures CodeFor(rules + [r], direction) ==
            CodeFor(rules, direction) + (if r.direction == direction then [Compile(r).value] else [])
  {
    var more := rules + [r];
    assert AllCompile(more);
    if rules == [] {
      assert more[0] == r && more[1..] == [];
    } else {
      assert more[0] == rules[0] && more[1..] == rules[1..] + [r];
      CodeForOneMore(rules[1..], r, direction);
    }
  }

  lemma Overwrite(rs: Ruleset, x: seq<Chain>, y: seq<Chain>)
    ensures rs[TABLE := x][TABLE := y] == rs[TABLE := y]
    ensures (rs - {TABLE})[TABLE := x] == rs[TABLE := x]
  {}

  lemma StandingRulesAreWellFormed()
    ensures WellFormedRule(CtEstablishedAccept()) && WellFormedRule(IifAccept(LOOPBACK))
  {}

  lemma AppendOnly(a: Chain, r: Rule)
    ensures HasChain([a], a.name)
    ensures AppendRule([a], a.name, r) == [a.(rules := a.rules + [r])]
  {
    assert [a][0].name == a.name;
  }

  lemma AppendFirst(a: Chain, b: Chain, r: Rule)
    requires a.name != b.name
    ensures HasChain([a, b], a.name)
    ensures AppendRule([a, b], a.name, r) == [a.(rules := a.rules + [r]), b]
  {
    assert [a, b][0].name == a.name;
  }

  lemma AppendSecond(a: Chain, b: Chain, r: Rule)
    requires a.name != b.name
    ensures HasChain([a, b], b.name)
    ensures AppendRule([a, b], b.name, r) == [a, b.(rules := b.rules + [r])]
  {
    assert [a, b][1].name == b.name;
  }

  /** Adding one compiled rule to the chain of its direction, as the loop over the rules does. */
  lemma AddCompiledRule(rs: Ruleset, rules: seq<FirewallRule>, r: FirewallRule)
    requires AllCompile(rules) && Compiles(r)
    ensures AllCompile(rules + [r])
    ensures var before, after := rs[TABLE := PartialTable(rules)], rs[TABLE := PartialTable(rules + [r])];
            && (r.direction == "ingress" ==>
                  CommitOp(before, AddRule(TABLE, "input", Compile(r).value)) == Some(after))
            && (r.direction == "egress" ==>
                  CommitOp(before, AddRule(TABLE, "output", Compile(r).value)) == Some(after))
            && (r.direction != "ingress" && r.direction != "egress" ==> before == after)
  {
    CodeForOneMore(rules, r, "ingress");
    CodeForOneMore(rules, r, "egress");
    CompiledIsWellFormed(r);
    var code := Compile(r).value;
    var before, after := PartialTable(rules), PartialTable(rules + [r]);
    assert before == [before[0], before[1]];
    Overwrite(rs, before, after);
    if r.direction == "ingress" {
      AppendFirst(before[0], before[1], code);
      assert after[0].rules == before[0].rules + [code];
      assert after[1].rules == before[1].rules;
    } else if r.direction == "egress" {
      AppendSecond(before[0], before[1], code);
      assert after[0].rules == before[0].rules;
    } else {
      assert after[0].rules == before[0].rules;
      assert after[1].rules == before[1].rules;
    }
  }

  method ApplyFirewall(kernel: Kernel, rules: seq<FirewallRule>, faults: Faults) returns (err: Option<ApplyError>)
    modifies kernel
    ensures kernel.ruleset == Reconcile(old(kernel.ruleset), rules, faults)
    ensures err.None? <==> Succeeds(rules, faults)
    ensures err.None? ==>
              && TableId(Inet, "weft-fw") in kernel.ruleset
              && kernel.ruleset[TableId(Inet, "weft-fw")] ==
                 [Chain("input", InputHook, Drop,
                        [CtEstablishedAccept(), IifAccept([0x6C, 0x6F])] + CodeFor(rules, "ingress")
                        + [[Counter(0, 0), Verdict(Drop)]]),
                  Chain("output", OutputHook, Accept, CodeFor(rules, "egress"))]
              && kernel.ruleset - {TableId(Inet, "weft-fw")} == old(kernel.ruleset) - {TableId(Inet, "weft-fw")}
    ensures err.Some? ==> kernel.ruleset == old(kernel.ruleset)
    ensures faults.open ==> err == Some(OpenFailed)
    ensures !faults.open && faults.list ==> err == Some(ListFailed)
    ensures !faults.open && !faults.list ==>
              if AllCompile(rules) then err == if faults.flush then Some(FlushFailed) else None
              else exists i | 0 <= i < |rules| ::
                     && AllCompile(rules[..i]) && Compile(rules[i]).Err?
                     && err == Some(BuildFailed(Compile(rules[i]).error))
  {
    if faults.open {
      return Some(OpenFailed);
    }
    var c := new Conn(kernel);
    if faults.list {
      return Some(ListFailed);
    }
    ghost var rs := kernel.ruleset;
    var existing := kernel.ListTables(Inet);
    QueueDeletes(c, rs, existing);
    QueueBaseChains(c, rs);
    var build := QueueRules(c, rs, rules);
    if build.Some? {
      return Some(BuildFailed(build.value));
    }
    TailCompletesTable(rs, rules);
    QueueStep(c, rs, AddRule(TABLE, "input", TailRule(0, 0)), rs[TABLE := PartialTable(rules)],
              rs[TABLE := TableFor(rules, 0, 0)]);
    var ok := c.Flush(faults.flush);
    return if ok then None else Some(FlushFailed);
  }

  /** Queues the removal of the old table if the listing shows one. */
  method QueueDeletes(c: Conn, ghost rs: Ruleset, existing: seq<string>)
    requires c.batch == []
    requires TABLE.name in existing <==> TABLE in rs
    requires forall i, j | 0 <= i < j < |existing| :: existing[i] != existing[j]
    modifies c
    ensures Commit(rs, c.batch) == Some(rs - {TABLE})
  {
    for i := 0 to |existing|
      invariant Commit(rs, c.batch) == Some(if TABLE.name in existing[..i] then rs - {TABLE} else rs)
    {
      if existing[i] == TABLE.name {
        CommitOneMore(rs, c.batch, DelTable(TABLE));
        c.Queue(DelTable(TABLE));
      }
    }
    assert existing[..|existing|] == existing;
    assert TABLE !in rs ==> rs == rs - {TABLE};
  }

  /** The batch so far turns rs into `before`; one more request turns it into `after`. */
  method QueueStep(c: Conn, ghost rs: Ruleset, op: Op, ghost before: Ruleset, ghost after: Ruleset)
    requires Commit(rs, c.batch) == Some(before) && CommitOp(before, op) == Some(after)
    modifies c
    ensures Commit(rs, c.batch) == Some(after)
  {
    CommitOneMore(rs, c.batch, op);
    c.Queue(op);
  }

  /** Queues the table, its two chains and the two standing rules. */
  method QueueBaseChains(c: Conn, ghost rs: Ruleset)
    requires Commit(rs, c.batch) == Some(rs - {TABLE})
    modifies c
    ensures Commit(rs, c.batch) == Some(rs[TABLE := PartialTable([])])
    ensures PartialTable([]) ==
            [Chain("input", InputHook, Drop, [CtEstablishedAccept(), IifAccept([0x6C, 0x6F])]),
             Chain("output", OutputHook, Accept, [])]
  {
    var input := Chain("input", InputHook, Drop, []);
    var output := Chain("output", OutputHook, Accept, []);
    ghost var one := input.(rules := [CtEstablishedAccept()]);
    ghost var two := input.(rules := [CtEstablishedAccept(), IifAccept(LOOPBACK)]);
    BaseSteps(rs, input, one, two, output);
    QueueStep(c, rs, AddTable(TABLE), rs - {TABLE}, rs[TABLE := []]);
    QueueStep(c, rs, AddChain(TABLE, input), rs[TABLE := []], rs[TABLE := [input]]);
    QueueStep(c, rs, AddRule(TABLE, "input", CtEstablishedAccept()), rs[TABLE := [input]], rs[TABLE := [one]]);
    QueueStep(c, rs, AddRule(TABLE, "input", IifAccept(LOOPBACK)), rs[TABLE := [one]], rs[TABLE := [two]]);
    QueueStep(c, rs, AddChain(TABLE, output), rs[TABLE := [two]], rs[TABLE := [two, output]]);
    assert AcceptRules([]) == two.rules;
    assert PartialTable([]) == [two, output];
  }

  lemma BaseSteps(rs: Ruleset, input: Chain, one: Chain, two: Chain, output: Chain)
    requires input == Chain("input", InputHook, Drop, []) && output.name == "output"
    requires one == input.(rules := [CtEstablishedAccept()])
    requires two == input.(rules := [CtEstablishedAccept(), IifAccept(LOOPBACK)])
    ensures CommitOp(rs - {TABLE}, AddTable(TABLE)) == Some(rs[TABLE := []])
    ensures CommitOp(rs[TABLE := []], AddChain(TABLE, input)) == Some(rs[TABLE := [input]])
    ensures CommitOp(rs[TABLE := [input]], AddRule(TABLE, "input", CtEstablishedAccept())) == Some(rs[TABLE := [one]])
    ensures CommitOp(rs[TABLE := [one]], AddRule(TABLE, "input", IifAccept(LOOPBACK))) == Some(rs[TABLE := [two]])
    ensures CommitOp(rs[TABLE := [two]], AddChain(TABLE, output)) == Some(rs[TABLE := [two, output]])
  {
    StandingRulesAreWellFormed();
    Overwrite(rs, [], [input]);
    Overwrite(rs, [input], [one]);
    Overwrite(rs, [one], [two]);
    Overwrite(rs, [two], [two, output]);
    AppendOnly(input, CtEstablishedAccept());
    AppendOnly(one, IifAccept(LOOPBACK));
    assert [] + [input] == [input];
    assert input.rules + [CtEstablishedAccept()] == one.rules;
    assert one.rules + [IifAccept(LOOPBACK)] == two.rules;
    assert [two] + [output] == [two, output];
  }

  /** The loop over the rules: compile each, and queue it on the chain of its direction. A rule of
      neither direction that still compiles is passed over. */
  method QueueRules(c: Conn, ghost rs: Ruleset, rules: seq<FirewallRule>) returns (err: Option<CompileError>)
    requires Commit(rs, c.batch) == Some(rs[TABLE := PartialTable([])])
    modifies c
    ensures err.None? <==> AllCompile(rules)
    ensures err.None? ==> Commit(rs, c.batch) == Some(rs[TABLE := PartialTable(rules)])
    ensures err.Some? ==> exists i | 0 <= i < |rules| ::
              AllCompile(rules[..i]) && Compile(rules[i]) == Err(err.value)
  {
    for i := 0 to |rules|
      invariant AllCompile(rules[..i])
      invariant Commit(rs, c.batch) == Some(rs[TABLE := PartialTable(rules[..i])])
    {
      var exprs := BuildRuleExprs(rules[i]);
      if exprs.Err? {
        return Some(exprs.error);
      }
      AddCompiledRule(rs, rules[..i], rules[i]);
      assert rules[..i + 1] == rules[..i] + [rules[i]];
      ghost var before, after := rs[TABLE := PartialTable(rules[..i])], rs[TABLE := PartialTable(rules[..i + 1])];
      match rules[i].direction {
        case "ingress" => QueueStep(c, rs, AddRule(TABLE, "input", exprs.value), before, after);
        case "egress" => QueueStep(c, rs, AddRule(TABLE, "output", exprs.value), before, after);
        case _ =>
      }
    }
    assert rules[..|rules|] == rules;
    return None;
  }

  lemma TailCompletesTable(rs: Ruleset, rules: seq<FirewallRule>)
    requires AllCompile(rules)
    ensures CommitOp(rs[TABLE := PartialTable(rules)], AddRule(TABLE, "input", TailRule(0, 0))) ==
            Some(rs[TABLE := TableFor(rules, 0, 0)])
  {
    var before := PartialTable(rules);
    AppendFirst(before[0], before[1], TailRule(0, 0));
    assert before == [before[0], before[1]];
    Overwrite(rs, before, TableFor(rules, 0, 0));
  }
}
