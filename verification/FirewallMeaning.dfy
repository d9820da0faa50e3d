/** What validation lets pass, and what the code of a rule lets in, in the numbers of the protocols' headers. */
module FirewallMeaning {
  import opened Common
  import opened Nft
  import opened PodFirewall
  import opened FirewallCompiler
  import Cidr

  /** The first fault in the order direction, protocol, ports without tcp or udp, port order, CIDR is reported. */
  lemma ValidationReports(r: FirewallRule)
    ensures var known := r.direction in {"ingress", "egress"};
            var protocol := r.protocol in {"", "tcp", "udp", "icmp"};
            var ports := r.portMin != 0 || r.portMax != 0;
            var carried := ports ==> r.protocol in {"tcp", "udp"};
            && (!known ==> Validate(r) == Some(BadDirection))
            && (known && !protocol ==> Validate(r) == Some(BadProtocol))
            && (known && protocol && !carried ==> Validate(r) == Some(PortsNeedTcpOrUdp))
            && (known && protocol && carried && r.portMin > r.portMax ==> Validate(r) == Some(InvertedPorts))
            && (known && protocol && carried && r.portMin <= r.portMax ==>
                  Validate(r) == if r.remote == Malformed then Some(BadCidr) else None)
  {}

  /** A rule is valid iff it compiles, has a direction, has ports only with a protocol that carries them, and
      lets some packet through. */
  lemma ValidMeans(r: FirewallRule)
    ensures Valid(r) <==>
            && Compiles(r) && (r.direction == "ingress" || r.direction == "egress")
            && (r.portMin != 0 || r.portMax != 0 ==> r.protocol == "tcp" || r.protocol == "udp")
            && exists p: Packet :: Allows(r, p)
  {
    CompilesWhen(r);
    ValidationReports(r);
    SatisfiableIffOrdered(r);
  }

  /** What a rule lets through: the source of an ingress rule and the destination of an egress rule stand at
      bytes 12 and 16 of an IPv4 header, family 2, and at bytes 8 and 24 of an IPv6 header, family 10; tcp, udp
      and icmp are protocols 6, 17 and 1; the destination port is at bytes 2 and 3 behind the header. */
  lemma AllowsInNumbers(r: FirewallRule, p: Packet)
    ensures Allows(r, p) <==>
            && (r.remote.Subnet? ==>
                  var n := |r.remote.prefix.addr|;
                  var at := if n == 4 then if r.direction == "ingress" then 12 else 16
                            else if r.direction == "ingress" then 8 else 24;
                  && p.nfproto == (if n == 4 then 2 else 10)
                  && at + n <= |p.network| && Cidr.InPrefix(p.network[at..at + n], r.remote.prefix))
            && (r.protocol == "tcp" ==> p.l4proto == 6)
            && (r.protocol == "udp" ==> p.l4proto == 17)
            && (r.protocol == "icmp" ==> p.l4proto == 1)
            && (r.portMin != 0 || r.portMax != 0 ==>
                  && |p.transport| >= 4
                  && r.portMin <= 0x100 * (p.transport[2] as int) + p.transport[3] as int <= r.portMax)
  {}

  /** The code of every rule that compiles and whose network is not a mapped one accepts just that. */
  lemma CodeInNumbers(r: FirewallRule, reg: Register, p: Packet)
    requires Compiles(r) && !MappedRemote(r)
    ensures WellFormedRule(Compile(r).value)
    ensures Run(Compile(r).value, reg, p) == Stops(Accept) <==>
            && (r.remote.Subnet? ==>
                  var n := |r.remote.prefix.addr|;
                  var at := if n == 4 then if r.direction == "ingress" then 12 else 16
                            else if r.direction == "ingress" then 8 else 24;
                  && p.nfproto == (if n == 4 then 2 else 10)
                  && at + n <= |p.network| && Cidr.InPrefix(p.network[at..at + n], r.remote.prefix))
            && (r.protocol == "tcp" ==> p.l4proto == 6)
            && (r.protocol == "udp" ==> p.l4proto == 17)
            && (r.protocol == "icmp" ==> p.l4proto == 1)
            && (r.portMin != 0 || r.portMax != 0 ==>
                  && |p.transport| >= 4
                  && r.portMin <= 0x100 * (p.transport[2] as int) + p.transport[3] as int <= r.portMax)
  {
    CompiledIsWellFormed(r);
    CompilerPreservesMeaning(r, reg, p);
    AllowsInNumbers(r, p);
  }

  /** For a mapped network: IPv4 packets, family 2, whose sixteen bytes from byte 12 or 16 on lie in it. */
  lemma MappedCodeInNumbers(r: FirewallRule, reg: Register, p: Packet)
    requires Compiles(r) && MappedRemote(r)
    ensures WellFormedRule(Compile(r).value)
    ensures Run(Compile(r).value, reg, p) == Stops(Accept) <==>
            && p.nfproto == 2
            && (var at := if r.direction == "ingress" then 12 else 16;
                at + 16 <= |p.network| && Cidr.InPrefix(p.network[at..at + 16], r.remote.prefix))
            && (r.protocol == "tcp" ==> p.l4proto == 6)
            && (r.protocol == "udp" ==> p.l4proto == 17)
            && (r.protocol == "icmp" ==> p.l4proto == 1)
            && (r.portMin != 0 || r.portMax != 0 ==>
                  && |p.transport| >= 4
                  && r.portMin <= 0x100 * (p.transport[2] as int) + p.transport[3] as int <= r.portMax)
  {
    CompiledCodeMeaning(r, reg, p);
  }
}
