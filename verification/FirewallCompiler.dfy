/** buildRuleExprs: a declarative rule compiled to packet-filter expressions, and the proof that
    the expressions accept exactly the packets the rule allows. */
module FirewallCompiler {
  import opened Common
  import opened Bytes
  import opened Nft
  import opened PodFirewall
  import Cidr

  datatype CompileError = ParseCidr | UnknownDirection | UnknownProtocol

  /** Offset of the matched address in the network header, and the family guarding it. */
  function AddrOffset(ip: seq<Byte>, direction: string): Result<(nat, Byte), CompileError> {
    var v4 := Cidr.To4(ip).Some?;
    if v4 && direction == "ingress" then Ok((12, NFPROTO_IPV4))
    else if v4 && direction == "egress" then Ok((16, NFPROTO_IPV4))
    else if !v4 && direction == "ingress" then Ok((8, NFPROTO_IPV6))
    else if !v4 && direction == "egress" then Ok((24, NFPROTO_IPV6))
    else Err(UnknownDirection)
  }

  function PortBytes(p: Uint16): (s: seq<Byte>)
    ensures |s| == 2
  {
    [p / 0x100, p % 0x100]
  }

  function L4Number(protocol: string): Result<Byte, CompileError> {
    if protocol == "tcp" then Ok(IPPROTO_TCP)
    else if protocol == "udp" then Ok(IPPROTO_UDP)
    else if protocol == "icmp" then Ok(IPPROTO_ICMP)
    else Err(UnknownProtocol)
  }

  function RemoteCode(p: Cidr.Prefix, offset: nat, family: Byte): Rule {
    var mask := Cidr.Mask(p.bits, |p.addr|);
    [Meta(NfProto), Cmp(Eq, [family]), Payload(NetworkHeader, offset, |p.addr|),
     Bitwise(mask, Zeros(|mask|)), Cmp(Eq, Cidr.Apply(Cidr.Network(p), mask))]
  }

  function ProtocolCode(l4: Byte): Rule {
    [Meta(L4Proto), Cmp(Eq, [l4])]
  }

  function PortCode(min: Uint16, max: Uint16): Rule {
    [Payload(TransportHeader, 2, 2),
     if min == max then Cmp(Eq, PortBytes(min)) else Range(Eq, PortBytes(min), PortBytes(max))]
  }

  function RemotePart(r: FirewallRule): Result<Rule, CompileError> {
    match r.remote
    case AnyRemote => Ok([])
    case Malformed => Err(ParseCidr)
    case Subnet(p) =>
      var at := AddrOffset(Cidr.Network(p), r.direction);
      if at.Ok? then Ok(RemoteCode(p, at.value.0, at.value.1)) else Err(at.error)
  }

  function ProtocolPart(r: FirewallRule): Result<Rule, CompileError> {
    if r.protocol == "" then Ok([])
    else
      var l4 := L4Number(r.protocol);
      if l4.Ok? then Ok(ProtocolCode(l4.value)) else Err(l4.error)
  }

  function PortPart(r: FirewallRule): Rule {
    if r.HasPorts() then PortCode(r.portMin, r.portMax) else []
  }

  /** What the compiler produces, piece by piece; the earliest failing piece decides the error. */
  function Compile(r: FirewallRule): Result<Rule, CompileError> {
    var remote := RemotePart(r);
    if remote.Err? then remote
    else
      var protocol := ProtocolPart(r);
      if protocol.Err? then protocol
      else Ok(remote.value + protocol.value + PortPart(r) + [Verdict(Accept)])
  }

  /** The compiler itself: appends the pieces the rule asks for to a growing list. */
  method BuildRuleExprs(r: FirewallRule) returns (res: Result<Rule, CompileError>)
    ensures res == Compile(r)
  {
    var exprs: Rule := [];
    if !r.remote.AnyRemote? {
      if r.remote.Malformed? {
        return Err(ParseCidr);
      }
      var at := AddrOffset(Cidr.Network(r.remote.prefix), r.direction);
      if at.Err? {
        return Err(at.error);
      }
      exprs := exprs + RemoteCode(r.remote.prefix, at.value.0, at.value.1);
    }
    ghost var remote := RemotePart(r).value;
    assert exprs == remote;
    if r.protocol != "" {
      var l4 := L4Number(r.protocol);
      if l4.Err? {
        return Err(l4.error);
      }
      exprs := exprs + ProtocolCode(l4.value);
    }
    ghost var protocol := ProtocolPart(r).value;
    assert exprs == remote + protocol;
    if r.HasPorts() {
      exprs := exprs + PortCode(r.portMin, r.portMax);
    }
    assert exprs == remote + protocol + PortPart(r);
    exprs := exprs + [Verdict(Accept)];
    return Ok(exprs);
  }

  predicate Compiles(r: FirewallRule) {
    Compile(r).Ok?
  }

  /** A rule compiles iff its CIDR parses, its protocol is known, and a rule with a CIDR has a direction; of
      several faults the first of these, with the direction before the protocol, is the error. */
  lemma CompilesWhen(r: FirewallRule)
    ensures Compiles(r) <==>
            && !r.remote.Malformed?
            && (r.remote.Subnet? ==> r.direction in {"ingress", "egress"})
            && r.protocol in {"", "tcp", "udp", "icmp"}
    ensures Valid(r) ==> Compiles(r)
    ensures r.remote.Malformed? ==> Compile(r) == Err(ParseCidr)
    ensures r.remote.Subnet? && r.direction !in {"ingress", "egress"} ==> Compile(r) == Err(UnknownDirection)
    ensures r.remote.AnyRemote? || (r.remote.Subnet? && r.direction in {"ingress", "egress"}) ==>
              (Compile(r) == Err(UnknownProtocol) <==> r.protocol !in {"", "tcp", "udp", "icmp"})
  {}

  predicate AcceptCode(code: Rule) {
    forall i | 0 <= i < |code| ::
      code[i].WellFormed() && !code[i].Counter? && (code[i].Verdict? ==> code[i].kind == Accept)
  }

  /** Every compiled rule is one the kernel takes, and its only verdict is accept. */
  lemma CompiledIsWellFormed(r: FirewallRule)
    requires Compiles(r)
    ensures WellFormedRule(Compile(r).value)
    ensures forall i | 0 <= i < |Compile(r).value| ::
              var e := Compile(r).value[i]; !e.Counter? && (e.Verdict? ==> e.kind == Accept)
  {
    var a, b, c := RemotePart(r).value, ProtocolPart(r).value, PortPart(r);
    assert AcceptCode(a);
    assert AcceptCode(b);
    assert AcceptCode(c);
    assert AcceptCode(a + b + c + [Verdict(Accept)]);
  }

  /** A rule whose IPv6 network the source mistakes for an IPv4 one. */
  predicate MappedRemote(r: FirewallRule) {
    r.remote.Subnet? && Cidr.V4Mapped(Cidr.Network(r.remote.prefix))
  }

  function MatchedAddress(r: FirewallRule, p: Packet): Option<seq<Byte>> {
    if r.direction == "ingress" then SourceAddress(p) else DestinationAddress(p)
  }

  /** Loading a one-byte field and comparing it guards the rest of a rule. */
  lemma ByteGuard(key: MetaKey, value: Byte, rest: Rule, reg: Register, p: Packet)
    requires !key.IifName? && WellFormedRule(rest)
    ensures var code := [Meta(key), Cmp(Eq, [value])] + rest;
            && WellFormedRule(code)
            && var loaded := Store(reg, MetaBytes(key, p));
            Run(code, reg, p) == if MetaBytes(key, p) == [value] then Run(rest, loaded, p) else Breaks(loaded)
  {
    var cmp := Cmp(Eq, [value]);
    assert [Meta(key), cmp] + rest == [Meta(key)] + ([cmp] + rest);
    RunCons(cmp, rest, Store(reg, MetaBytes(key, p)), p);
    RunCons(Meta(key), [cmp] + rest, reg, p);
  }

  /** The load and the address test behind the family guard. */
  lemma LoadAndTest(prefix: Cidr.Prefix, offset: nat, reg: Register, p: Packet)
    ensures var n := |prefix.addr|;
            var code := [Payload(NetworkHeader, offset, n)] + MaskTest(prefix);
            && WellFormedRule(code)
            && var end := Run(code, reg, p);
            if offset + n <= |p.network| && Cidr.InPrefix(p.network[offset..offset + n], prefix)
            then end.Continues? else end.Breaks?
  {
    var n := |prefix.addr|;
    RunCons(Payload(NetworkHeader, offset, n), MaskTest(prefix), reg, p);
    if offset + n <= |p.network| {
      var addr := p.network[offset..offset + n];
      MaskAndCompare(prefix, Store(reg, addr), addr, p);
    }
  }

  /** What the address code tests, for every network: the family the source picks, and the prefix of as
      many bytes as the network has, loaded at the offset it picks. */
  predicate RemoteTest(r: FirewallRule, p: Packet)
    requires RemotePart(r).Ok?
  {
    r.remote.Subnet? ==>
      var prefix := r.remote.prefix;
      var at := AddrOffset(Cidr.Network(prefix), r.direction).value;
      var end := at.0 + |prefix.addr|;
      p.nfproto == at.1 && end <= |p.network| && Cidr.InPrefix(p.network[at.0..end], prefix)
  }

  lemma RemoteCodeTests(r: FirewallRule, reg: Register, p: Packet)
    requires RemotePart(r).Ok?
    ensures WellFormedRule(RemotePart(r).value)
    ensures var end := Run(RemotePart(r).value, reg, p);
            if RemoteTest(r, p) then end.Continues? else end.Breaks?
  {
    if r.remote.Subnet? {
      var prefix := r.remote.prefix;
      var at := AddrOffset(Cidr.Network(prefix), r.direction).value;
      var code := [Payload(NetworkHeader, at.0, |prefix.addr|)] + MaskTest(prefix);
      Cidr.MaskIsIdempotent(prefix);
      assert RemotePart(r).value == [Meta(NfProto), Cmp(Eq, [at.1])] + code;
      LoadAndTest(prefix, at.0, Store(reg, [p.nfproto]), p);
      ByteGuard(NfProto, at.1, code, reg, p);
    }
  }

  /** The tested bytes are the source or destination address unless the network is a mapped one. */
  lemma TestIsMatch(r: FirewallRule, p: Packet)
    requires RemotePart(r).Ok? && !MappedRemote(r)
    ensures RemoteTest(r, p) <==> RemoteMatches(r, p)
  {
    if r.remote.Subnet? {
      var at := AddrOffset(Cidr.Network(r.remote.prefix), r.direction).value;
      var end := at.0 + |r.remote.prefix.addr|;
      if p.nfproto == at.1 && end <= |p.network| {
        assert MatchedAddress(r, p) == Some(p.network[at.0..end]);
      }
    }
  }

  lemma RemoteCodeMeaning(r: FirewallRule, reg: Register, p: Packet)
    requires RemotePart(r).Ok? && !MappedRemote(r)
    ensures WellFormedRule(RemotePart(r).value)
    ensures var end := Run(RemotePart(r).value, reg, p);
            if RemoteMatches(r, p) then end.Continues? else end.Breaks?
  {
    RemoteCodeTests(r, reg, p);
    TestIsMatch(r, p);
  }

  /** The last two expressions of the address test. */
  function MaskTest(prefix: Cidr.Prefix): (code: Rule)
    ensures WellFormedRule(code)
  {
    var mask := Cidr.Mask(prefix.bits, |prefix.addr|);
    [Bitwise(mask, Zeros(|mask|)), Cmp(Eq, Cidr.Network(prefix))]
  }

  lemma MaskAndCompare(prefix: Cidr.Prefix, reg: Register, addr: seq<Byte>, p: Packet)
    requires |addr| == |prefix.addr| && reg[..|addr|] == addr
    ensures var end := Run(MaskTest(prefix), reg, p);
            if Cidr.InPrefix(addr, prefix) then end.Continues? else end.Breaks?
  {
    var mask := Cidr.Mask(prefix.bits, |addr|);
    var masked := Cidr.Apply(addr, mask);
    var cmp := Cmp(Eq, Cidr.Network(prefix));
    assert MaskTest(prefix) == [Bitwise(mask, Zeros(|mask|))] + [cmp];
    RunCons(Bitwise(mask, Zeros(|mask|)), [cmp], reg, p);
    assert [cmp] == [cmp] + [];
    var step := Exec(Bitwise(mask, Zeros(|mask|)), reg, p);
    XorZero(reg, mask);
    assert step == Next(Store(reg, masked));
    RunCons(cmp, [], step.reg, p);
    Cidr.MaskingIsMembership(addr, prefix);
  }

  lemma XorZero(reg: Register, mask: seq<Byte>)
    requires |mask| <= 16
    ensures seq(|mask|, i requires 0 <= i < |mask| => XorByte(And(reg[i], mask[i]), Zeros(|mask|)[i]))
            == Cidr.Apply(reg[..|mask|], mask)
  {
    forall x: Byte ensures XorByte(x, 0) == x {
      assert Pow2(8) == 0x100;
      XorWithZero(x, 8);
    }
  }

  lemma {:induction false} XorWithZero(x: nat, width: nat)
    requires x < Pow2(width)
    ensures Xor(x, 0, width) == x
  {
    if width > 0 {
      XorWithZero(x / 2, width - 1);
    }
  }

  lemma ProtocolCodeMeaning(r: FirewallRule, reg: Register, p: Packet)
    requires ProtocolPart(r).Ok?
    ensures WellFormedRule(ProtocolPart(r).value)
    ensures var end := Run(ProtocolPart(r).value, reg, p);
            if ProtocolMatches(r, p) then end.Continues? else end.Breaks?
  {
    if r.protocol != "" {
      var code := ProtocolPart(r).value;
      assert code == code + [];
      ByteGuard(L4Proto, L4Number(r.protocol).value, [], reg, p);
    }
  }

  /** Byte order and numeric order agree on big-endian ports. */
  lemma PortOrder(a: Uint16, hi: Byte, lo: Byte)
    ensures LexLe(PortBytes(a), [hi, lo]) <==> a <= BigEndian16(hi, lo)
    ensures LexLe([hi, lo], PortBytes(a)) <==> BigEndian16(hi, lo) <= a
    ensures PortBytes(a) == [hi, lo] <==> a == BigEndian16(hi, lo)
  {
    assert PortBytes(a)[1..] == [a % 0x100] && [hi, lo][1..] == [lo];
    assert [a % 0x100][1..] == [] && [lo][1..] == [];
    assert LexLe([a % 0x100], [lo]) <==> a % 0x100 <= lo;
    assert LexLe([lo], [a % 0x100]) <==> lo <= a % 0x100;
  }

  lemma PortCodeMeaning(r: FirewallRule, reg: Register, p: Packet)
    ensures WellFormedRule(PortPart(r))
    ensures var end := Run(PortPart(r), reg, p);
            if PortMatches(r, p) then end.Continues? else end.Breaks?
  {
    if r.HasPorts() {
      var test := PortCode(r.portMin, r.portMax)[1];
      assert PortPart(r) == [Payload(TransportHeader, 2, 2)] + [test];
      assert [test] == [test] + [];
      RunCons(Payload(TransportHeader, 2, 2), [test], reg, p);
      if |p.transport| >= 4 {
        var hi, lo := p.transport[2], p.transport[3];
        assert p.transport[2..4] == [hi, lo];
        RunCons(test, [], Store(reg, [hi, lo]), p);
        PortOrder(r.portMin, hi, lo);
        PortOrder(r.portMax, hi, lo);
      }
    }
  }

  /** Whether the compiled rule does to this packet what the rule means. */
  ghost predicate Faithful(r: FirewallRule, reg: Register, p: Packet)
    requires Compiles(r)
  {
    CompiledIsWellFormed(r);
    var end := Run(Compile(r).value, reg, p);
    if Allows(r, p) then end == Stops(Accept) else end.Breaks?
  }

  /** What the code of a rule lets through, whatever its network. */
  predicate CodeAllows(r: FirewallRule, p: Packet)
    requires Compiles(r)
  {
    RemoteTest(r, p) && ProtocolMatches(r, p) && PortMatches(r, p)
  }

  /** The exact meaning of the code of every rule that compiles. */
  lemma CompiledCodeMeaning(r: FirewallRule, reg: Register, p: Packet)
    requires Compiles(r)
    ensures WellFormedRule(Compile(r).value)
    ensures var end := Run(Compile(r).value, reg, p);
            if CodeAllows(r, p) then end == Stops(Accept) else end.Breaks?
  {
    var a, b, c, d := RemotePart(r).value, ProtocolPart(r).value, PortPart(r), [Verdict(Accept)];
    CompiledIsWellFormed(r);
    RemoteCodeTests(r, reg, p);
    var afterA := Run(a, reg, p);
    if afterA.Continues? {
      ProtocolCodeMeaning(r, afterA.reg, p);
      var afterB := Run(b, afterA.reg, p);
      if afterB.Continues? {
        PortCodeMeaning(r, afterB.reg, p);
      }
    }
    ProtocolCodeMeaning(r, reg, p);
    PortCodeMeaning(r, reg, p);
    RunConcat(a, b, reg, p);
    RunConcat(a + b, c, reg, p);
    RunConcat(a + b + c, d, reg, p);
  }

  /** The compiler preserves meaning: a packet is accepted exactly when the rule allows it, and falls
      through to the next rule otherwise, whatever the register held before. */
  lemma CompilerPreservesMeaning(r: FirewallRule, reg: Register, p: Packet)
    requires Compiles(r) && !MappedRemote(r)
    ensures Faithful(r, reg, p)
  {
    CompiledCodeMeaning(r, reg, p);
    TestIsMatch(r, p);
  }

  /** A packet made to fit a rule. */
  function Specimen(r: FirewallRule): Packet {
    var addr := if r.remote.Subnet? then r.remote.prefix.addr else Zeros(4);
    var offset := (if |addr| == 4 then 12 else 8) + if r.direction == "ingress" then 0 else |addr|;
    Packet(if |addr| == 4 then NFPROTO_IPV4 else NFPROTO_IPV6,
           if L4Number(r.protocol).Ok? then L4Number(r.protocol).value else 0, [], 0,
           Zeros(offset) + addr + Zeros(|addr|), [0, 0] + PortBytes(r.portMin), 0)
  }

  lemma SpecimenIsAllowed(r: FirewallRule)
    requires r.portMin <= r.portMax
    ensures Allows(r, Specimen(r))
  {
    var p := Specimen(r);
    if r.remote.Subnet? {
      var addr := r.remote.prefix.addr;
      var offset := (if |addr| == 4 then 12 else 8) + if r.direction == "ingress" then 0 else |addr|;
      assert p.network[offset..offset + |addr|] == addr;
      assert MatchedAddress(r, p) == Some(addr);
    }
    assert p.transport[2] == r.portMin / 0x100 && p.transport[3] == r.portMin % 0x100;
  }

  /** A rule lets some packet through exactly when its port range is not inverted, so the range check
      of the validation turns away the rules that could match nothing and no others. */
  lemma SatisfiableIffOrdered(r: FirewallRule)
    ensures (exists p: Packet :: Allows(r, p)) <==> r.portMin <= r.portMax
  {
    if r.portMin <= r.portMax {
      SpecimenIsAllowed(r);
    } else {
      forall p: Packet ensures !Allows(r, p) {
        assert !PortMatches(r, p);
      }
    }
  }

  /** The code for a mistaken network accepts IPv4 packets only, and of those the ones whose sixteen bytes
      from the IPv4 address on, not four, lie in the IPv6 network. */
  lemma MappedAcceptsIPv4Bytes(r: FirewallRule, reg: Register, p: Packet)
    requires Compiles(r) && MappedRemote(r)
    ensures WellFormedRule(Compile(r).value)
    ensures var at := if r.direction == "ingress" then 12 else 16;
            Run(Compile(r).value, reg, p) == Stops(Accept) <==>
            && p.nfproto == NFPROTO_IPV4
            && at + 16 <= |p.network|
            && Cidr.InPrefix(p.network[at..at + 16], r.remote.prefix)
            && ProtocolMatches(r, p) && PortMatches(r, p)
  {
    CompiledCodeMeaning(r, reg, p);
  }

  /** So it never accepts an IPv6 packet. */
  lemma MappedNeverAcceptsIPv6(r: FirewallRule, reg: Register, p: Packet)
    requires Compiles(r) && MappedRemote(r) && p.nfproto == NFPROTO_IPV6
    ensures WellFormedRule(Compile(r).value) && Run(Compile(r).value, reg, p).Breaks?
  {
    CompiledCodeMeaning(r, reg, p);
  }

  /** For validated rules the compiler is right on every packet exactly when it does not mistake the
      rule's IPv6 network for an IPv4 one. */
  lemma FaithfulIffNotMapped(r: FirewallRule)
    requires Valid(r)
    ensures Compiles(r)
    ensures (forall reg: Register, p: Packet :: Faithful(r, reg, p)) <==> !MappedRemote(r)
  {
    CompilesWhen(r);
    if MappedRemote(r) {
      var reg: Register := Zeros(16);
      SpecimenIsAllowed(r);
      MappedNeverAcceptsIPv6(r, reg, Specimen(r));
      assert !Faithful(r, reg, Specimen(r));
    } else {
      forall reg: Register, p: Packet ensures Faithful(r, reg, p) {
        CompilerPreservesMeaning(r, reg, p);
      }
    }
  }

  /** Host bits do not reach the code: two CIDRs of one family and length compile alike exactly when
      they are the same network. */
  lemma HostBitsAreIrrelevant(r: FirewallRule, p: Cidr.Prefix, q: Cidr.Prefix)
    requires r.direction in {"ingress", "egress"} && r.protocol in {"", "tcp", "udp", "icmp"}
    requires |p.addr| == |q.addr| && p.bits == q.bits
    ensures Compile(r.(remote := Subnet(p))) == Compile(r.(remote := Subnet(q))) <==> Cidr.InPrefix(p.addr, q)
  {
    var x, y := r.(remote := Subnet(p)), r.(remote := Subnet(q));
    Cidr.SameNetwork(p, q);
    Cidr.MaskIsIdempotent(p);
    Cidr.MaskIsIdempotent(q);
    if Compile(x) == Compile(y) {
      assert Compile(x).value[4] == Cmp(Eq, Cidr.Network(p));
      assert Compile(y).value[4] == Cmp(Eq, Cidr.Network(q));
    }
  }
}
