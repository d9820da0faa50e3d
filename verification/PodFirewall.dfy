/** The desired ruleset a microVM receives, its validation, and what a rule means for a packet. */
module PodFirewall {
  import opened Common
  import opened Nft
  import Cidr

  /** The remote_cidr text once parsed: absent, malformed, or an address and a prefix length. */
  datatype Remote = AnyRemote | Malformed | Subnet(prefix: Cidr.Prefix)

  datatype FirewallRule = FirewallRule(direction: string, protocol: string, portMin: Uint16, portMax: Uint16,
                                       remote: Remote)
  {
    predicate HasPorts() {
      portMin != 0 || portMax != 0
    }
  }

  datatype RuleError = BadDirection | BadProtocol | PortsNeedTcpOrUdp | InvertedPorts | BadCidr

  /** The checks in the source's order; the first one that fails is reported. */
  function Validate(r: FirewallRule): (e: Option<RuleError>) {
    if r.direction != "ingress" && r.direction != "egress" then Some(BadDirection)
    else if r.protocol !in {"", "tcp", "udp", "icmp"} then Some(BadProtocol)
    else if r.HasPorts() && r.protocol != "tcp" && r.protocol != "udp" then Some(PortsNeedTcpOrUdp)
    else if r.HasPorts() && r.portMin > r.portMax then Some(InvertedPorts)
    else if r.remote.Malformed? then Some(BadCidr)
    else None
  }

  predicate Valid(r: FirewallRule) {
    Validate(r).None?
  }

  predicate AllValid(rules: seq<FirewallRule>) {
    forall i | 0 <= i < |rules| :: Valid(rules[i])
  }

  /** The list check returns the position and error of the first bad rule. */
  function ValidateAll(rules: seq<FirewallRule>): (e: Option<(nat, RuleError)>)
    ensures e.None? <==> AllValid(rules)
    ensures e.Some? ==>
              && e.value.0 < |rules|
              && Validate(rules[e.value.0]) == Some(e.value.1)
              && AllValid(rules[..e.value.0])
  {
    if rules == [] then None
    else
      var first := Validate(rules[0]);
      if first.Some? then Some((0, first.value))
      else
        var rest := ValidateAll(rules[1..]);
        assert rest.None? ==> forall i | 0 <= i < |rules| :: i > 0 ==> rules[i] == rules[1..][i - 1];
        if rest.None? then None
        else
          assert rules[..rest.value.0 + 1] == [rules[0]] + rules[1..][..rest.value.0];
          Some((rest.value.0 + 1, rest.value.1))
  }

  // Protocol numbers: NFPROTO_* of the packet filter, and the IP protocol field.
  const NFPROTO_IPV4: Byte := 2
  const NFPROTO_IPV6: Byte := 10
  const IPPROTO_ICMP: Byte := 1
  const IPPROTO_TCP: Byte := 6
  const IPPROTO_UDP: Byte := 17

  /** Section 3.1 of RFC 791 and section 3 of RFC 8200: where each header keeps its source. */
  function SourceAddress(p: Packet): Option<seq<Byte>> {
    if p.nfproto == NFPROTO_IPV4 && |p.network| >= 16 then Some(p.network[12..16])
    else if p.nfproto == NFPROTO_IPV6 && |p.network| >= 24 then Some(p.network[8..24])
    else None
  }

  function DestinationAddress(p: Packet): Option<seq<Byte>> {
    if p.nfproto == NFPROTO_IPV4 && |p.network| >= 20 then Some(p.network[16..20])
    else if p.nfproto == NFPROTO_IPV6 && |p.network| >= 40 then Some(p.network[24..40])
    else None
  }

  function BigEndian16(hi: Byte, lo: Byte): Uint16 {
    0x100 * hi + lo
  }

  /** Section 3.1 of RFC 9293: the destination port is the second half-word, most significant byte first. */
  function DestinationPort(p: Packet): Option<Uint16> {
    if |p.transport| >= 4 then Some(BigEndian16(p.transport[2], p.transport[3])) else None
  }

  predicate RemoteMatches(r: FirewallRule, p: Packet) {
    r.remote.Subnet? ==>
      var remote := if r.direction == "ingress" then SourceAddress(p) else DestinationAddress(p);
      remote.Some? && Cidr.InPrefix(remote.value, r.remote.prefix)
  }

  predicate ProtocolMatches(r: FirewallRule, p: Packet) {
    && (r.protocol == "tcp" ==> p.l4proto == IPPROTO_TCP)
    && (r.protocol == "udp" ==> p.l4proto == IPPROTO_UDP)
    && (r.protocol == "icmp" ==> p.l4proto == IPPROTO_ICMP)
  }

  predicate PortMatches(r: FirewallRule, p: Packet) {
    r.HasPorts() ==>
      var port := DestinationPort(p);
      port.Some? && r.portMin <= port.value <= r.portMax
  }

  /** The plain meaning of a rule: the packets it lets through. */
  predicate Allows(r: FirewallRule, p: Packet) {
    RemoteMatches(r, p) && ProtocolMatches(r, p) && PortMatches(r, p)
  }
}
