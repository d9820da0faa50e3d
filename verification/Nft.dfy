/** The part of the kernel's packet filter that the firewall programs: expressions over one
    16-byte register, rules, chains and tables, and what running them on a packet does. */
module Nft {
  import opened Common
  import opened Bytes

  type Register = r: seq<Byte> | |r| == 16 witness [0, 0, 0, 0, 0, 0, 0, 0, 0, 0, 0, 0, 0, 0, 0, 0]

  datatype MetaKey = NfProto | L4Proto | IifName

  datatype PayloadBase = NetworkHeader | TransportHeader

  datatype CmpOp = Eq | Neq

  datatype VerdictKind = Accept | Drop

  /** Every expression the source emits names register 1, so the machine has that register only. */
  datatype Expr =
    | CtState
    | Meta(key: MetaKey)
    | Payload(base: PayloadBase, offset: nat, len: nat)
    | Bitwise(mask: seq<Byte>, xor: seq<Byte>)
    | Cmp(op: CmpOp, data: seq<Byte>)
    | Range(rop: CmpOp, from: seq<Byte>, to: seq<Byte>)
    | Counter(packets: nat, bytes: nat)
    | Verdict(kind: VerdictKind)
  {
    /** What the kernel checks before it accepts an expression: operands fit the register. */
    predicate WellFormed() {
      match this
      case Payload(_, _, len) => len <= 16
      case Bitwise(mask, xor) => |mask| == |xor| <= 16
      case Cmp(_, data) => |data| <= 16
      case Range(_, from, to) => |from| == |to| <= 16
      case _ => true
    }
  }

  type Rule = seq<Expr>

  predicate WellFormedRule(es: Rule) {
    forall i | 0 <= i < |es| :: es[i].WellFormed()
  }

  predicate WellFormedRules(rules: seq<Rule>) {
    forall i | 0 <= i < |rules| :: WellFormedRule(rules[i])
  }

  /** A packet at a filter hook: protocol numbers, input interface name, conntrack state bits and
      the raw bytes of its two headers. */
  datatype Packet = Packet(nfproto: Byte, l4proto: Byte, iif: seq<Byte>, ctState: Uint32,
                           network: seq<Byte>, transport: seq<Byte>, size: nat)
  {
    /** Interface names are shorter than 16 bytes and hold no NUL. */
    predicate NamedInterface() {
      |iif| < 16 && forall i | 0 <= i < |iif| :: iif[i] != 0
    }
  }

  /** A load writes whole 32-bit words: the value, zeros up to the word boundary, and nothing above. */
  function Store(reg: Register, data: seq<Byte>): (r: Register)
    requires |data| <= 16
    ensures r[..|data|] == data
    ensures r[Align(|data|)..] == reg[Align(|data|)..]
  {
    data + Zeros(Align(|data|) - |data|) + reg[Align(|data|)..]
  }

  /** Bitwise and, one binary digit at a time. */
  function And(x: nat, y: nat): (z: nat)
    ensures z <= x && z <= y
  {
    if x == 0 || y == 0 then 0
    else 2 * And(x / 2, y / 2) + (if x % 2 == 1 && y % 2 == 1 then 1 else 0)
  }

  function Pow2(n: nat): (p: nat)
    ensures p >= 1
  {
    if n == 0 then 1 else 2 * Pow2(n - 1)
  }

  /** Exclusive or of two numbers of the given binary width. */
  function Xor(x: nat, y: nat, width: nat): (z: nat)
    requires x < Pow2(width) && y < Pow2(width)
    ensures z < Pow2(width)
  {
    if width == 0 then 0 else 2 * Xor(x / 2, y / 2, width - 1) + (if x % 2 != y % 2 then 1 else 0)
  }

  function XorByte(x: Byte, y: Byte): Byte {
    assert Pow2(8) == 0x100;
    Xor(x, y, 8)
  }

  /** The interface name as the kernel loads it: NUL-padded to 16 bytes, always NUL-terminated. */
  function LoadedIfname(name: seq<Byte>): (s: seq<Byte>)
    ensures |s| == 16
  {
    if |name| < 16 then name + Zeros(16 - |name|) else name[..15] + [0]
  }

  function MetaBytes(key: MetaKey, p: Packet): (s: seq<Byte>)
    ensures |s| <= 16
  {
    match key
    case NfProto => [p.nfproto]
    case L4Proto => [p.l4proto]
    case IifName => LoadedIfname(p.iif)
  }

  /** memcmp order of two equally long byte strings. */
  predicate LexLe(a: seq<Byte>, b: seq<Byte>)
    requires |a| == |b|
  {
    a == [] || a[0] < b[0] || (a[0] == b[0] && LexLe(a[1..], b[1..]))
  }

  datatype Effect = Next(reg: Register) | Break | Stop(kind: VerdictKind)

  /** One step of the machine. A failed comparison and a load past the end of a header break out. */
  function Exec(e: Expr, reg: Register, p: Packet): Effect
    requires e.WellFormed()
  {
    match e
    case CtState => Next(Store(reg, LE32(p.ctState)))
    case Meta(key) => Next(Store(reg, MetaBytes(key, p)))
    case Payload(base, offset, len) =>
      var header := if base.NetworkHeader? then p.network else p.transport;
      if offset + len <= |header| then Next(Store(reg, header[offset..offset + len])) else Break
    case Bitwise(mask, xor) =>
      Next(Store(reg, seq(|mask|, i requires 0 <= i < |mask| => XorByte(And(reg[i], mask[i]), xor[i]))))
    case Cmp(op, data) =>
      if (reg[..|data|] == data) == op.Eq? then Next(reg) else Break
    case Range(op, from, to) =>
      var inside := LexLe(from, reg[..|from|]) && LexLe(reg[..|to|], to);
      if inside == op.Eq? then Next(reg) else Break
    case Counter(_, _) => Next(reg)
    case Verdict(kind) => Stop(kind)
  }

  /** How a rule ends: past its last expression, broken out of, or with a verdict. */
  datatype RuleEnd = Continues(reg: Register) | Breaks(reg: Register) | Stops(kind: VerdictKind)

  function Run(es: Rule, reg: Register, p: Packet): RuleEnd
    requires WellFormedRule(es)
  {
    if es == [] then Continues(reg)
    else
      match Exec(es[0], reg, p)
      case Next(r) => Run(es[1..], r, p)
      case Break => Breaks(reg)
      case Stop(kind) => Stops(kind)
  }

  const COUNTER_MODULUS: nat := 0x1_0000_0000_0000_0000

  function Bump(e: Expr, p: Packet): (b: Expr)
    ensures b.WellFormed() == e.WellFormed()
    ensures !e.Counter? ==> b == e
  {
    if e.Counter? then
      Counter((e.packets + 1) % COUNTER_MODULUS, (e.bytes + p.size) % COUNTER_MODULUS)
    else e
  }

  /** The rule after a packet ran through it: every counter reached has counted the packet. */
  function Tick(es: Rule, reg: Register, p: Packet): Rule
    requires WellFormedRule(es)
  {
    if es == [] then []
    else
      match Exec(es[0], reg, p)
      case Next(r) => [Bump(es[0], p)] + Tick(es[1..], r, p)
      case _ => es
  }

  /** The verdict of a base chain: that of the first rule giving one, else the chain policy. */
  function Traverse(rules: seq<Rule>, policy: VerdictKind, reg: Register, p: Packet): VerdictKind
    requires WellFormedRules(rules)
  {
    if rules == [] then policy
    else
      var end := Run(rules[0], reg, p);
      if end.Stops? then end.kind else Traverse(rules[1..], policy, end.reg, p)
  }

  /** The rules of a chain after a packet traversed it. */
  function TickRules(rules: seq<Rule>, reg: Register, p: Packet): seq<Rule>
    requires WellFormedRules(rules)
  {
    if rules == [] then []
    else
      var end := Run(rules[0], reg, p);
      [Tick(rules[0], reg, p)] + (if end.Stops? then rules[1..] else TickRules(rules[1..], end.reg, p))
  }

  lemma {:induction false} RunConcat(a: Rule, b: Rule, reg: Register, p: Packet)
    requires WellFormedRule(a) && WellFormedRule(b)
    ensures WellFormedRule(a + b)
    ensures var first := Run(a, reg, p);
            Run(a + b, reg, p) == if first.Continues? then Run(b, first.reg, p) else first
  {
    if a == [] {
      assert a + b == b;
    } else {
      assert (a + b)[1..] == a[1..] + b;
      assert forall i | 0 <= i < |a + b| :: (a + b)[i].WellFormed();
      var e := Exec(a[0], reg, p);
      if e.Next? {
        RunConcat(a[1..], b, e.reg, p);
      }
    }
  }

  /** Splits off one step, so that proofs can walk straight-line code. */
  lemma RunCons(e: Expr, es: Rule, reg: Register, p: Packet)
    requires e.WellFormed() && WellFormedRule(es)
    ensures WellFormedRule([e] + es)
    ensures var step := Exec(e, reg, p);
            && (step.Next? ==> Run([e] + es, reg, p) == Run(es, step.reg, p))
            && (step.Break? ==> Run([e] + es, reg, p) == Breaks(reg))
            && (step.Stop? ==> Run([e] + es, reg, p) == Stops(step.kind))
  {
    assert ([e] + es)[1..] == es;
  }

  datatype Hook = InputHook | OutputHook

  datatype Chain = Chain(name: string, hook: Hook, policy: VerdictKind, rules: seq<Rule>)

  datatype Family = Inet | OtherFamily(number: nat)

  /** A table is known by its family and name; it holds its chains in the order they were added. */
  datatype TableId = TableId(family: Family, name: string)

  type Ruleset = map<TableId, seq<Chain>>

  /** The requests a batch is made of. */
  datatype Op =
    | DelTable(table: TableId)
    | AddTable(table: TableId)
    | AddChain(table: TableId, chain: Chain)
    | AddRule(table: TableId, chainName: string, rule: Rule)

  predicate HasChain(chains: seq<Chain>, name: string) {
    exists i | 0 <= i < |chains| :: chains[i].name == name
  }

  function AppendRule(chains: seq<Chain>, name: string, rule: Rule): (cs: seq<Chain>)
    ensures |cs| == |chains|
  {
    seq(|chains|, i requires 0 <= i < |chains| =>
      if chains[i].name == name then chains[i].(rules := chains[i].rules + [rule]) else chains[i])
  }

  /** One request, or none if the kernel rejects it. */
  function CommitOp(rs: Ruleset, op: Op): Option<Ruleset> {
    match op
    case DelTable(t) => if t in rs then Some(rs - {t}) else None
    case AddTable(t) => Some(if t in rs then rs else rs[t := []])
    case AddChain(t, c) => if t in rs && !HasChain(rs[t], c.name) then Some(rs[t := rs[t] + [c]]) else None
    case AddRule(t, c, r) =>
      if t in rs && HasChain(rs[t], c) && WellFormedRule(r) then Some(rs[t := AppendRule(rs[t], c, r)]) else None
  }

  /** A batch takes effect as a whole: one rejected request rejects it. */
  function Commit(rs: Ruleset, ops: seq<Op>): Option<Ruleset> {
    if ops == [] then Some(rs)
    else
      var before := Commit(rs, ops[..|ops| - 1]);
      if before.None? then None else CommitOp(before.value, ops[|ops| - 1])
  }

  lemma CommitOneMore(rs: Ruleset, ops: seq<Op>, op: Op)
    ensures var before := Commit(rs, ops);
            Commit(rs, ops + [op]) == if before.None? then None else CommitOp(before.value, op)
  {
    assert (ops + [op])[..|ops|] == ops;
  }

  /** The kernel's side of the netlink socket. */
  class Kernel {
    var ruleset: Ruleset

    constructor (rs: Ruleset)
      ensures ruleset == rs
    {
      ruleset := rs;
    }

    /** The names of a family's tables, each once, in whatever order the kernel keeps them. */
    method ListTables(family: Family) returns (names: seq<string>)
      ensures forall n :: n in names <==> TableId(family, n) in ruleset
      ensures forall i, j | 0 <= i < j < |names| :: names[i] != names[j]
    {
      names := [];
      var left := ruleset.Keys;
      while left != {}
        invariant left <= ruleset.Keys
        invariant forall n :: n in names <==> TableId(family, n) in ruleset.Keys - left
        invariant forall i, j | 0 <= i < j < |names| :: names[i] != names[j]
        decreases |left|
      {
        var t :| t in left;
        left := left - {t};
        if t.family == family {
          names := names + [t.name];
        }
      }
    }
  }

  /** A lasting connection: requests queue up until they are flushed as one batch. */
  class Conn {
    const kernel: Kernel
    var batch: seq<Op>

    constructor (k: Kernel)
      ensures kernel == k && batch == []
    {
      kernel := k;
      batch := [];
    }

    method Queue(op: Op)
      modifies this
      ensures batch == old(batch) + [op]
    {
      batch := batch + [op];
    }

    /** Sends the batch; the socket may fail, and the kernel may reject. Either way nothing changes. */
    method Flush(fails: bool) returns (ok: bool)
      modifies this, kernel
      ensures batch == []
      ensures ok == (!fails && Commit(old(kernel.ruleset), old(batch)).Some?)
      ensures kernel.ruleset ==
              if ok then Commit(old(kernel.ruleset), old(batch)).value else old(kernel.ruleset)
    {
      var result := Commit(kernel.ruleset, batch);
      batch := [];
      ok := !fails && result.Some?;
      if ok {
        kernel.ruleset := result.value;
      }
    }
  }
}
