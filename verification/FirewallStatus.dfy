/** ReadFirewallStatus: the installed table decoded back into a snapshot. */
module FirewallStatus {
  import opened Common
  import opened Nft
  import opened FirewallApply

  datatype Overall = Healthy | Degraded

  datatype StatusError = OpenError | ListTablesError | ListChainsError | GetRulesError(chain: string)

  datatype Status = Status(overall: Overall, tableInstalled: bool, rulesInstalled: nat,
                           dropsPackets: nat, dropsBytes: nat, lastError: Option<StatusError>)

  /** Which reads fail; rules can fail chain by chain. */
  datatype ReadFaults = ReadFaults(open: bool, tables: bool, chains: bool, rules: set<string>)

  /** The first verdict at or after position j. */
  function NextVerdict(es: Rule, j: nat): Option<VerdictKind>
    requires j <= |es|
    decreases |es| - j
  {
    if j == |es| then None
    else if es[j].Verdict? then Some(es[j].kind)
    else NextVerdict(es, j + 1)
  }

  /** A counter that counts drops: the next verdict after it is drop. */
  predicate CountsDrops(es: Rule, i: nat)
    requires i < |es|
  {
    es[i].Counter? && NextVerdict(es, i + 1) == Some(Drop)
  }

  /** The first counter from position i on that counts drops. */
  function DropCounterFrom(es: Rule, i: nat): Option<(nat, nat)>
    requires i <= |es|
    decreases |es| - i
  {
    if i == |es| then None
    else if CountsDrops(es, i) then Some((es[i].packets, es[i].bytes))
    else DropCounterFrom(es, i + 1)
  }

  /** Scans for a counter, looks ahead for the verdict, and stops at the first match. */
  method DropCounterFromRule(es: Rule) returns (packets: nat, bytes: nat, ok: bool)
    ensures ok <==> exists i | 0 <= i < |es| :: CountsDrops(es, i)
    ensures ok ==> exists i | 0 <= i < |es| ::
                     && CountsDrops(es, i)
                     && (forall k | 0 <= k < i :: !CountsDrops(es, k))
                     && packets == es[i].packets && bytes == es[i].bytes
    ensures DropCounterFrom(es, 0) == if ok then Some((packets, bytes)) else None
    ensures !ok ==> packets == bytes == 0
  {
    var ctr: Option<Expr> := None;
    var i := 0;
    while i < |es| && ctr.None?
      invariant i <= |es|
      invariant ctr.None? ==> forall k | 0 <= k < i :: !CountsDrops(es, k)
      invariant ctr.Some? ==> 0 < i && CountsDrops(es, i - 1) && ctr.value == es[i - 1]
      invariant ctr.Some? ==> forall k | 0 <= k < i - 1 :: !CountsDrops(es, k)
      invariant DropCounterFrom(es, 0) ==
                if ctr.None? then DropCounterFrom(es, i) else Some((ctr.value.packets, ctr.value.bytes))
      decreases |es| - i
    {
      if es[i].Counter? {
        var j := i + 1;
        while j < |es| && !es[j].Verdict?
          invariant i < j <= |es|
          invariant NextVerdict(es, i + 1) == NextVerdict(es, j)
        {
          j := j + 1;
        }
        if j < |es| && es[j].kind == Drop {
          ctr := Some(es[i]);
        }
      }
      i := i + 1;
    }
    if ctr.None? {
      return 0, 0, false;
    }
    return ctr.value.packets, ctr.value.bytes, true;
  }

  function Add64(a: nat, b: nat): nat {
    (a + b) % COUNTER_MODULUS
  }

  datatype Tally = Tally(rules: nat, packets: nat, bytes: nat)

  /** The drop counters of a list of rules added onto a running pair. */
  function AddDrops(t: Tally, rules: seq<Rule>): Tally {
    if rules == [] then t
    else
      var before := AddDrops(t, rules[..|rules| - 1]);
      var c := DropCounterFrom(rules[|rules| - 1], 0);
      if c.None? then before
      else before.(packets := Add64(before.packets, c.value.0), bytes := Add64(before.bytes, c.value.1))
  }

  /** Every chain's rules are counted; only the input chain's drop counters are summed. */
  function TallyChains(chains: seq<Chain>): Tally {
    if chains == [] then Tally(0, 0, 0)
    else
      var before := TallyChains(chains[..|chains| - 1]);
      var c := chains[|chains| - 1];
      var counted := before.(rules := before.rules + |c.rules|);
      if c.name == "input" then AddDrops(counted, c.rules) else counted
  }

  /** The chains that a status read sums up count all their rules, wherever they stand, but drops only if their
      name is input. */
  lemma {:induction false} OtherChainsCountNoDrops(before: seq<Chain>, c: Chain, after: seq<Chain>)
    ensures var with, without := TallyChains(before + [c] + after), TallyChains(before + after);
            && with.rules == without.rules + |c.rules|
            && (c.name != "input" ==> with.packets == without.packets && with.bytes == without.bytes)
    decreases |after|
  {
    if after == [] {
      assert before + [c] + after == before + [c] && before + after == before;
      TallyOneMore(before, c);
      AddDropsKeepsRules(TallyChains(before).(rules := TallyChains(before).rules + |c.rules|), c.rules);
    } else {
      var n := |after| - 1;
      assert before + [c] + after == (before + [c] + after[..n]) + [after[n]];
      assert before + after == (before + after[..n]) + [after[n]];
      TallyOneMore(before + [c] + after[..n], after[n]);
      TallyOneMore(before + after[..n], after[n]);
      OtherChainsCountNoDrops(before, c, after[..n]);
      var t, u := TallyChains(before + [c] + after[..n]), TallyChains(before + after[..n]);
      AddDropsDependsOn(t.(rules := t.rules + |after[n].rules|), u.(rules := u.rules + |after[n].rules|),
                        after[n].rules);
    }
  }

  lemma {:induction false} AddDropsKeepsRules(t: Tally, rules: seq<Rule>)
    ensures AddDrops(t, rules).rules == t.rules
  {
    if rules != [] {
      AddDropsKeepsRules(t, rules[..|rules| - 1]);
    }
  }

  lemma {:induction false} AddDropsDependsOn(t: Tally, u: Tally, rules: seq<Rule>)
    ensures AddDrops(t, rules).rules == t.rules && AddDrops(u, rules).rules == u.rules
    ensures t.packets == u.packets && t.bytes == u.bytes ==>
              AddDrops(t, rules).packets == AddDrops(u, rules).packets
              && AddDrops(t, rules).bytes == AddDrops(u, rules).bytes
  {
    if rules != [] {
      AddDropsDependsOn(t, u, rules[..|rules| - 1]);
    }
  }

  /** In an input chain, each rule adds the first counter that stands before a drop with no verdict between,
      wrapping at 64 bits. */
  lemma InputChainCountsDrops(rules: seq<Rule>, es: Rule, i: nat, j: nat)
    requires i < j < |es| && es[i].Counter? && es[j] == Verdict(Drop)
    requires forall k | i < k < j :: !es[k].Verdict?
    requires forall k | 0 <= k < i :: !es[k].Counter?
    ensures var t := TallyChains([Chain("input", InputHook, Drop, rules)]);
            TallyChains([Chain("input", InputHook, Drop, rules + [es])]) ==
            Tally(|rules| + 1, (t.packets + es[i].packets) % 0x1_0000_0000_0000_0000,
                  (t.bytes + es[i].bytes) % 0x1_0000_0000_0000_0000)
  {
    var c, d := Chain("input", InputHook, Drop, rules), Chain("input", InputHook, Drop, rules + [es]);
    TallyOneMore([], c);
    TallyOneMore([], d);
    assert [] + [c] == [c] && [] + [d] == [d];
    VerdictAhead(es, i + 1, j);
    assert CountsDrops(es, i);
    FirstCounter(es, 0, i);
    assert (rules + [es])[..|rules|] == rules;
    AddDropsDependsOn(Tally(|rules|, 0, 0), Tally(|rules| + 1, 0, 0), rules);
  }

  lemma {:induction false} VerdictAhead(es: Rule, i: nat, j: nat)
    requires i <= j < |es| && es[j].Verdict? && forall k | i <= k < j :: !es[k].Verdict?
    ensures NextVerdict(es, i) == Some(es[j].kind)
    decreases j - i
  {
    if i < j {
      VerdictAhead(es, i + 1, j);
    }
  }

  lemma {:induction false} FirstCounter(es: Rule, k: nat, i: nat)
    requires k <= i < |es| && CountsDrops(es, i) && forall m | k <= m < i :: !es[m].Counter?
    ensures DropCounterFrom(es, k) == Some((es[i].packets, es[i].bytes))
    decreases i - k
  {
    if k < i {
      FirstCounter(es, k + 1, i);
    }
  }

  predicate Readable(chains: seq<Chain>, faults: ReadFaults) {
    forall i | 0 <= i < |chains| :: chains[i].name !in faults.rules
  }

  /** The snapshot of a ruleset, fault by fault in the order the reads happen. */
  ghost predicate IsStatusOf(s: Status, rs: Ruleset, faults: ReadFaults) {
    if faults.open then s == Status(Degraded, false, 0, 0, 0, Some(OpenError))
    else if faults.tables then s == Status(Degraded, false, 0, 0, 0, Some(ListTablesError))
    else if TABLE !in rs then s == Status(Healthy, false, 0, 0, 0, None)
    else if faults.chains then s == Status(Degraded, true, 0, 0, 0, Some(ListChainsError))
    else if !Readable(rs[TABLE], faults) then
      exists i | 0 <= i < |rs[TABLE]| ::
        && rs[TABLE][i].name in faults.rules
        && Readable(rs[TABLE][..i], faults)
        && s == Status(Degraded, true, 0, 0, 0, Some(GetRulesError(rs[TABLE][i].name)))
    else
      var t := TallyChains(rs[TABLE]);
      s == Status(Healthy, true, t.rules, t.packets, t.bytes, None)
  }

  /** With the table there, a status read is healthy iff the chains can be listed and the rules of each read, and
      else names the first chain whose rules cannot. */
  lemma StatusOfTable(s: Status, rs: Ruleset, faults: ReadFaults)
    requires IsStatusOf(s, rs, faults) && !faults.open && !faults.tables && TableId(Inet, "weft-fw") in rs
    ensures s.tableInstalled
    ensures faults.chains ==> s == Status(Degraded, true, 0, 0, 0, Some(ListChainsError))
    ensures var chains := rs[TableId(Inet, "weft-fw")];
            !faults.chains ==>
              && (s.overall == Healthy <==> forall i | 0 <= i < |chains| :: chains[i].name !in faults.rules)
              && (s.overall == Degraded ==>
                    exists i | 0 <= i < |chains| ::
                      && chains[i].name in faults.rules
                      && (forall k | 0 <= k < i :: chains[k].name !in faults.rules)
                      && s == Status(Degraded, true, 0, 0, 0, Some(GetRulesError(chains[i].name))))
  {
    var chains := rs[TABLE];
    if !faults.chains && !Readable(chains, faults) {
      var i :| 0 <= i < |chains| && chains[i].name in faults.rules && Readable(chains[..i], faults)
               && s == Status(Degraded, true, 0, 0, 0, Some(GetRulesError(chains[i].name)));
      assert forall k | 0 <= k < i :: chains[..i][k] == chains[k];
    }
  }

  /** The listed chains that belong to one table, in order. */
  function ChainsOf(listing: seq<(string, Chain)>, table: string): seq<Chain> {
    if listing == [] then []
    else
      var last := listing[|listing| - 1];
      ChainsOf(listing[..|listing| - 1], table) + (if last.0 == table then [last.1] else [])
  }

  lemma ChainsOfOneMore(listing: seq<(string, Chain)>, entry: (string, Chain), table: string)
    ensures ChainsOf(listing + [entry], table) ==
            ChainsOf(listing, table) + (if entry.0 == table then [entry.1] else [])
  {
    assert (listing + [entry])[..|listing|] == listing;
  }

  /** The chains of one table are appended, in their order. */
  method ListTable(before: seq<(string, Chain)>, table: string, chains: seq<Chain>)
      returns (listing: seq<(string, Chain)>)
    requires ChainsOf(before, table) == []
    ensures forall n :: ChainsOf(listing, n) == if n == table then chains else ChainsOf(before, n)
  {
    listing := before;
    for i := 0 to |chains|
      invariant forall n :: ChainsOf(listing, n) == if n == table then chains[..i] else ChainsOf(before, n)
    {
      forall n ensures ChainsOf(listing + [(table, chains[i])], n) ==
                       ChainsOf(listing, n) + (if table == n then [chains[i]] else [])
      {
        ChainsOfOneMore(listing, (table, chains[i]), n);
      }
      assert chains[..i + 1] == chains[..i] + [chains[i]];
      listing := listing + [(table, chains[i])];
    }
    assert chains[..|chains|] == chains;
  }

  /** All chains of the inet family: those of one table stand in the order they were added. */
  method ListChains(kernel: Kernel) returns (listing: seq<(string, Chain)>)
    ensures forall n | TableId(Inet, n) in kernel.ruleset :: ChainsOf(listing, n) == kernel.ruleset[TableId(Inet, n)]
  {
    listing := [];
    var left := kernel.ruleset.Keys;
    while left != {}
      invariant left <= kernel.ruleset.Keys
      invariant forall n :: ChainsOf(listing, n) ==
                  if TableId(Inet, n) in kernel.ruleset.Keys - left then kernel.ruleset[TableId(Inet, n)] else []
      decreases |left|
    {
      var t :| t in left;
      if t.family == Inet {
        listing := ListTable(listing, t.name, kernel.ruleset[t]);
        assert t == TableId(Inet, t.name);
      }
      left := left - {t};
    }
  }

  method ReadFirewallStatus(kernel: Kernel, faults: ReadFaults) returns (s: Status)
    ensures IsStatusOf(s, kernel.ruleset, faults)
    ensures faults.open ==> s == Status(Degraded, false, 0, 0, 0, Some(OpenError))
    ensures !faults.open && faults.tables ==> s == Status(Degraded, false, 0, 0, 0, Some(ListTablesError))
    ensures !faults.open && !faults.tables && TableId(Inet, "weft-fw") !in kernel.ruleset ==>
              s == Status(Healthy, false, 0, 0, 0, None)
  {
    if faults.open {
      return Status(Degraded, false, 0, 0, 0, Some(OpenError));
    }
    if faults.tables {
      return Status(Degraded, false, 0, 0, 0, Some(ListTablesError));
    }
    var tables := kernel.ListTables(Inet);
    var ours := false;
    for i := 0 to |tables|
      invariant ours <==> TABLE.name in tables[..i]
    {
      if tables[i] == TABLE.name {
        ours := true;
      }
    }
    assert tables[..|tables|] == tables;
    if !ours {
      return Status(Healthy, false, 0, 0, 0, None);
    }
    if faults.chains {
      return Status(Degraded, true, 0, 0, 0, Some(ListChainsError));
    }
    var listing := ListChains(kernel);
    s := SumChains(listing, faults, kernel.ruleset);
  }

  /** The loop over the listed chains, skipping those of other tables. */
  method SumChains(listing: seq<(string, Chain)>, faults: ReadFaults, ghost rs: Ruleset) returns (s: Status)
    requires TABLE in rs && ChainsOf(listing, TABLE.name) == rs[TABLE]
    requires !faults.open && !faults.tables && !faults.chains
    ensures IsStatusOf(s, rs, faults)
  {
    var total: nat, dropPkts: nat, dropBytes: nat := 0, 0, 0;
    ghost var chains, seen: seq<Chain> := rs[TABLE], [];
    for i := 0 to |listing|
      invariant seen == ChainsOf(listing[..i], TABLE.name) && seen <= chains
      invariant Readable(seen, faults)
      invariant TallyChains(seen) == Tally(total, dropPkts, dropBytes)
    {
      NextListed(listing, i, TABLE.name);
      var (table, ch) := listing[i];
      if table != TABLE.name {
        continue;
      }
      if ch.name in faults.rules {
        UnreadableStatus(rs, |seen|, faults);
        return Status(Degraded, true, 0, 0, 0, Some(GetRulesError(ch.name)));
      }
      TallyOneMore(seen, ch);
      ReadableOneMore(seen, ch, faults);
      seen := seen + [ch];
      total := total + |ch.rules|;
      if ch.name != "input" {
        continue;
      }
      dropPkts, dropBytes := SumDrops(ch.rules, dropPkts, dropBytes, total);
    }
    assert listing[..|listing|] == listing;
    return Status(Healthy, true, total, dropPkts, dropBytes, None);
  }

  lemma ReadableOneMore(seen: seq<Chain>, c: Chain, faults: ReadFaults)
    requires Readable(seen, faults) && c.name !in faults.rules
    ensures Readable(seen + [c], faults)
  {}

  /** The first chain that cannot be read decides the status. */
  lemma UnreadableStatus(rs: Ruleset, i: nat, faults: ReadFaults)
    requires TABLE in rs && !faults.open && !faults.tables && !faults.chains
    requires i < |rs[TABLE]| && rs[TABLE][i].name in faults.rules && Readable(rs[TABLE][..i], faults)
    ensures IsStatusOf(Status(Degraded, true, 0, 0, 0, Some(GetRulesError(rs[TABLE][i].name))), rs, faults)
  {
    assert !Readable(rs[TABLE], faults);
  }

  lemma TallyOneMore(seen: seq<Chain>, c: Chain)
    ensures var before := TallyChains(seen);
            var counted := before.(rules := before.rules + |c.rules|);
            TallyChains(seen + [c]) == if c.name == "input" then AddDrops(counted, c.rules) else counted
  {
    assert (seen + [c])[..|seen|] == seen;
  }

  /** One more entry of the listing is one more chain of its table. */
  lemma NextListed(listing: seq<(string, Chain)>, i: nat, table: string)
    requires i < |listing|
    ensures var seen, now := ChainsOf(listing[..i], table), ChainsOf(listing[..i + 1], table);
            var chains := ChainsOf(listing, table);
            && now <= chains
            && (if listing[i].0 != table then now == seen
                else now == seen + [listing[i].1] && |seen| < |chains|
                     && chains[|seen|] == listing[i].1 && chains[..|seen|] == seen)
  {
    PrefixOfListing(listing, i + 1, table);
    assert listing[..i + 1] == listing[..i] + [listing[i]];
    ChainsOfOneMore(listing[..i], listing[i], table);
  }

  lemma {:induction false} PrefixOfListing(listing: seq<(string, Chain)>, i: nat, table: string)
    requires i <= |listing|
    ensures ChainsOf(listing[..i], table) <= ChainsOf(listing, table)
    decreases |listing| - i
  {
    if i < |listing| {
      PrefixOfListing(listing, i + 1, table);
      assert listing[..i + 1][..i] == listing[..i];
    } else {
      assert listing[..i] == listing;
    }
  }

  method SumDrops(rules: seq<Rule>, packets: nat, bytes: nat, ghost total: nat) returns (p: nat, b: nat)
    ensures AddDrops(Tally(total, packets, bytes), rules) == Tally(total, p, b)
  {
    p, b := packets, bytes;
    for i := 0 to |rules|
      invariant AddDrops(Tally(total, packets, bytes), rules[..i]) == Tally(total, p, b)
    {
      assert rules[..i + 1][..i] == rules[..i];
      var pkts, byts, ok := DropCounterFromRule(rules[i]);
      if !ok {
        continue;
      }
      p, b := Add64(p, pkts), Add64(b, byts);
    }
    assert rules[..|rules|] == rules;
  }
}
