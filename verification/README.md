# Verification of the weft microVM init

Dafny models of the parts of weft-microvm-init that carry protocol, arithmetic or parsing logic, and proofs about
them. `dafny verify dfyconfig.toml` checks everything.

## What is modelled

**The firewall** (`Bytes`, `Nft`, `Cidr`, `PodFirewall`, `FirewallCompiler`, `FirewallApply`, `FirewallChains`,
`FirewallMeaning`, `FirewallStatus`, `FirewallHistory`, `FirewallVerdict`). A rule is compiled to expressions for a
packet machine with one 16-byte register. `Nft` gives the machine a small-step meaning over raw header bytes: a load
writes whole words into the register, a failed comparison or a load past the end of a header breaks out of the rule, a
counter counts, a verdict stops. It also has the kernel's tables as a map that a batch of requests changes as a whole
or not at all. The main results are the exact meaning of the code of every rule that compiles; that this is the
meaning of the rule on every packet and register content exactly when the rule's IPv6 network is not an IPv4-mapped
one; that the whole input chain admits exactly what the code of its rules lets in; that a call replaces the whole
table or changes nothing; that after any run of calls and packets the hooks, each chain with its own policy, let every
packet out, and in what the rules of the last successful call let in; and that a status read reports the number of
rules and the drops since that call. Header offsets follow section 3.1 of RFC 791, section 3 of RFC 8200 and section
3.1 of RFC 9293, prefixes section 3.1 of RFC 4632, mapped addresses section 2.5.5.2 of RFC 4291.

**The supervisor** (`Lifecycle` and the modules named after it, `Supervisor`, `PodSpec`). A state machine whose
threads are the start loop of Run, the consumer with its restarts, the reaper with its bounded lossy channel, Stop,
and the kernel that creates, ends and renumbers processes. Every runtime call may fail, the reported pid is arbitrary,
and any step may come at any time. The invariants are proved over every interleaving; which exits the restart policy
answers with a start, and that starts follow exits one for one; that every exit is handled but
the dropped ones, over every run with true pids; in which pods Stop can return early while a container lives, exactly;
and from which states Run can still return nil, exactly. `Supervisor` has the objects themselves; each method is one
section under the mutex, proved to change the shared maps as the corresponding step does.

**Netlink frames** (`Netlink`). The growing, padded and patched buffer, and a parser for section 2.3.2 of RFC 3549
that reads it back; the bytes of the three requests.

**Environment and identity** (`Text`, `Env`, `ImageConfig`). The image's environment list as a map, the map merged
onto defaults, the user field printed and parsed.

**The CubeFS registry** (`CubeFS`, `CubeFSLog`, `CubeFSCalls`, `CubeFSCooperation`, `CubeFSRegistry`). A state machine
of the thread that holds the registry's lock, the cfs-client processes, the reaper goroutine of each and the mount
table; what the registry holds as a fold over the calls it has handled; how every call ends, whatever happens
meanwhile; the runs in which the publish log alone decides; and the registry's methods.

**Two parsers** (`CrunState`, `Cmdline`). The substring search over the runtime's state, and the directives of the
kernel command line with the pod made up from them.

## Where the code and its comments disagree

The model follows the code.

- Both directions match the destination port (pkg/network/firewall_linux.go:230-237); a comment promises the source
  port for egress (pkg/pod/firewall.go:38-39).
- The drop counter starts again at zero with every call, because the rule that holds it is created anew
  (pkg/network/firewall_linux.go:142-148); a comment says that it survives (pkg/network/firewall_linux.go:100-106).
  `FirewallHistory.ReapplyResetsOnlyTheCounter` states it.
- A drop counter need not stand immediately before its verdict: the code looks ahead over other expressions
  (pkg/network/firewallstat_linux.go:110-117), a comment says immediately (lines 98-99).
- Ports are said to be ignored for icmp and for no protocol (pkg/pod/firewall.go:35-36). Validate turns such rules
  away (lines 96-99), and the compiler, which does not look at the protocol there, would emit the port test
  (pkg/network/firewall_linux.go:229-248).
- Run is said to wait until all containers that are not restarted have exited (pkg/supervisor/supervisor.go:59-60). It
  waits for all of them (lines 84-91).
- A repeated publish is said to establish its mount again (pkg/cubefs/mount.go:169-171). It does not while the old
  mount cannot be detached, and one that has vanished cannot be until its path is a mount again (lines 176-180).

## What is false in general, and when it holds

- The compiler is not right for an IPv6 network that is an IPv4-mapped one: it guards the rule with the IPv4 protocol
  number. `FirewallCompiler.FaithfulIffNotMapped` shows that this is the only failure.
- Stop can return before its deadline while a container lives: lastExit is not cleared by a restart
  (pkg/supervisor/supervisor.go:161 and 249-258). `LifecycleEarlyStop.EarlyStopFailsIff` shows that this can happen as
  it returns, exactly in the pods whose containers all have a bundle and of which one is restarted, always or on
  failure. Before the first record Stop returns at once, and Run goes on to start containers that were never swept: a
  container can live at some time after an early return exactly in the pods whose first container has a bundle
  (`LifecycleLosses.EarlyStopFailsLaterIff`). In a given state of an early return every started process has been
  handled exactly when no pid is registered and the consumer is not about to register one
  (`LifecycleEarlyStop.EarlyStopIsCleanIffIdle`).
- An exit is missed exactly when its event met a full channel; the pid index then keeps a stale entry
  (`LifecycleExits.OnlyDroppedExitsAreMissed`). This can happen in every pod whose first container has a bundle, and
  in no other (`LifecycleLosses.ExitCanBeDroppedIff`).
- With true pids, an exit is handled for a container that did not own the process exactly when the entry of its pid is
  stale: it is that of a dropped event, and the pid was given out again (`LifecycleTracking.WrongExitIffStale`).
- Run does not always return nil in the end: a container that is taken up, not done, not registered and not being
  worked on stays so. While the reaper works, Run can still return nil exactly when every container has a bundle and
  none is stranded like that (`LifecycleReturnPath.RunCanReturnIffNoneStranded`).
- A repeated publish succeeds exactly when the call is not blocked and the new client does not fail
  (`CubeFSCalls.CallEndsAs`); `CubeFSCalls.VanishedMountBlocks` says how long it stays blocked, and
  `CubeFSCalls.EveryShareCanGetStuck` that every share can get there.
- Starts do not always balance handled exits: a start whose pid is unknown, or whose pid entry is overwritten, is
  never seen to end. `LifecycleAccounts.StartsBalance` counts these; the equation holds exactly when there are none,
  and there can be some exactly in the pods whose first container has a bundle (`LifecycleLosses.StartCanBeLostIff`).
- mergeEnv does not override a key that itself holds an equals sign; `Env.MergeOverridesIffPlain` has both directions.
- An attribute does not read back when its length overflows its 16-bit field; `Netlink.AttrsRoundTripIffFit` has both
  directions.
- A CubeFS directive cannot carry a master with a port, nor an empty field; `Cmdline.CubeFSRoundTrip` says exactly
  what it can carry.

## Model

| member | source | states |
|---|---|---|
| Nft.Kernel.ListTables | pkg/network/firewall_linux.go:72-75 | every table name of the family, each once |
| Nft.Conn.Flush | pkg/network/firewall_linux.go:150-153 | a batch takes effect whole or not at all, and only an accepted batch succeeds |
| Nft.Conn.Queue | pkg/network/firewall_linux.go:97-98 | requests queue up in order and reach the kernel only with the flush |
| Cidr.MaskedComparison | pkg/network/firewall_linux.go:205-207 | comparing bytes under the mask compares exactly the leading bits, for every length of address and prefix |
| Cidr.MaskingIsMembership | pkg/network/firewall_linux.go:203-207 | the masked address equals the network iff the address lies in the prefix |
| Cidr.SameNetwork | pkg/network/firewall_linux.go:192-207 | two CIDRs of one length have the same network iff their prefix bits agree |
| Cidr.MaskIsIdempotent | pkg/network/firewall_linux.go:207 | masking an already masked network changes nothing |
| Cidr.MembershipIsDivision | pkg/network/firewall_linux.go:203-207 | an address lies in a prefix iff both, as big-endian numbers, have the same quotient by the size of the prefix's block |
| Cidr.IPv4Forms | pkg/network/firewall_linux.go:258-259 | IPv4 is four bytes, or the last four of sixteen that start with ten zeros and FF FF |
| PodFirewall.ValidateAll | pkg/pod/firewall.go:74-81 | none iff every rule is valid; else position and error of the first bad one |
| FirewallMeaning.ValidationReports | pkg/pod/firewall.go:85-110 | which error for which rule, in the order direction, protocol, ports without tcp or udp, inverted ports, CIDR |
| FirewallMeaning.ValidMeans | pkg/pod/firewall.go:85-110 | valid iff it compiles, has a direction, has ports only with tcp or udp, and lets some packet through |
| FirewallCompiler.BuildRuleExprs | pkg/network/firewall_linux.go:188-252 | address, protocol and port code and one accept, in this order; the earliest failing piece decides the error |
| FirewallCompiler.CompilesWhen | pkg/network/firewall_linux.go:191-222 | exactly which rules compile, and the error of the others; validated ones all do |
| FirewallCompiler.CompiledIsWellFormed | pkg/network/firewall_linux.go:200-250 | operands fit the register, no counter, no verdict but accept |
| FirewallCompiler.RemoteCodeTests | pkg/network/firewall_linux.go:191-209 | for every network: the address code goes on iff the family the source picks and the prefix of the bytes it loads match, and breaks out otherwise |
| FirewallCompiler.RemoteCodeMeaning | pkg/network/firewall_linux.go:191-209 | those bytes are the source or destination address, unless the network is an IPv4-mapped one |
| FirewallCompiler.ProtocolCodeMeaning | pkg/network/firewall_linux.go:211-227 | the protocol code goes on iff the protocol number matches |
| FirewallCompiler.PortOrder | pkg/network/firewall_linux.go:274 | byte order of big-endian ports is their numeric order |
| FirewallCompiler.PortCodeMeaning | pkg/network/firewall_linux.go:229-248 | the port code goes on iff the destination port is in the inclusive range |
| FirewallCompiler.CompiledCodeMeaning | pkg/network/firewall_linux.go:188-272 | exactly what the code of every rule that compiles accepts; it falls through otherwise, whatever the register held |
| FirewallCompiler.CompilerPreservesMeaning | pkg/network/firewall_linux.go:188-272 | a packet is accepted iff the rule allows it, and falls through otherwise, unless the network is an IPv4-mapped one |
| FirewallCompiler.MappedAcceptsIPv4Bytes | pkg/network/firewall_linux.go:200-208 | for an IPv4-mapped network: accepts IPv4 packets whose sixteen bytes from the address on lie in the IPv6 network |
| FirewallCompiler.MappedNeverAcceptsIPv6 | pkg/network/firewall_linux.go:258-263 | for an IPv4-mapped network the code breaks out on every IPv6 packet |
| FirewallCompiler.FaithfulIffNotMapped | pkg/network/firewall_linux.go:188-272 | for validated rules, right on all packets and registers iff the network is not IPv4-mapped |
| FirewallCompiler.SatisfiableIffOrdered | pkg/pod/firewall.go:96-103 | a rule lets some packet through iff its port range is not inverted: the range check turns away exactly what could match nothing |
| FirewallCompiler.HostBitsAreIrrelevant | pkg/network/firewall_linux.go:191-208 | CIDRs of one family and length compile alike iff they are the same network |
| FirewallMeaning.AllowsInNumbers | pkg/pod/firewall.go:27-46 | what a rule lets through, in header offsets 12, 16, 8 and 24, families 2 and 10, protocols 6, 17 and 1, and the port at transport bytes 2 and 3 |
| FirewallMeaning.CodeInNumbers | pkg/network/firewall_linux.go:188-272 | the code of every rule that compiles and has no IPv4-mapped network accepts exactly that, whatever the register held |
| FirewallMeaning.MappedCodeInNumbers | pkg/network/firewall_linux.go:188-272 | the code for an IPv4-mapped network accepts family 2 with sixteen bytes from byte 12 or 16 on in the network |
| FirewallApply.QueueDeletes | pkg/network/firewall_linux.go:76-80 | the queued batch leaves the kernel without the old table, present or not |
| FirewallApply.QueueBaseChains | pkg/network/firewall_linux.go:82-121 | the batch so far yields the fresh table with its standing rules, whatever was there |
| FirewallApply.QueueRules | pkg/network/firewall_linux.go:123-134 | each rule ends up on the chain of its direction, in order; fails iff some rule does not compile |
| FirewallApply.CodeKeepsOrder | pkg/network/firewall_linux.go:123-134 | rules keep their order on either chain, and reach only that of their own direction |
| FirewallApply.TailCompletesTable | pkg/network/firewall_linux.go:142-148 | the counting drop rule goes to the end of the input chain only |
| FirewallApply.ApplyFirewall | pkg/network/firewall_linux.go:58-154 | on success the kernel holds weft-fw with an input chain of policy drop and an output chain of policy accept, rule for rule, and no other change; on failure no change; the error is that of the first call that fails or rule that does not compile |
| FirewallChains.CtRuleMeaning | pkg/network/firewall_linux.go:159-170 | accepts iff conntrack says established or related |
| FirewallChains.PaddedNames | pkg/network/firewall_linux.go:276-280 | padding interface names to 16 bytes keeps different names different |
| FirewallChains.LoopbackRuleTests | pkg/network/firewall_linux.go:174-180 | accepts iff the loaded interface name equals the padded lo |
| FirewallChains.LoopbackRuleMeaning | pkg/network/firewall_linux.go:174-180 | for names as the kernel makes them that is the interface lo |
| FirewallChains.StandingTestsInNumbers | pkg/network/firewall_linux.go:159-180 | the conntrack bits are 2 and 4, and a name loads as lo iff it is lo up to a NUL or the fifteenth byte |
| FirewallChains.RulesMeaning | pkg/network/firewall_linux.go:123-134 | the compiled rules accept what the code of one of them lets in and leave the rest of the chain to decide otherwise |
| FirewallChains.InputChainMeaning | pkg/network/firewall_linux.go:87-148 | for every list of rules that compile and every packet: accept iff established or related, or loaded as lo, or let in by the code of some ingress rule |
| FirewallChains.InputChainDecides | pkg/network/firewall_linux.go:87-148 | accept iff established or related, or lo, or some ingress rule allows the packet |
| FirewallChains.InputVerdictIgnoresOrder | pkg/network/firewall_linux.go:123-134 | permuting the rules changes no verdict, mapped networks and odd interface names included |
| FirewallChains.MoreRulesAdmitMore | pkg/network/firewall_linux.go:123-134 | adding rules shuts no packet out, whatever the rules that compile |
| FirewallChains.OutputChainAcceptsAll | pkg/network/firewall_linux.go:108-121 | the output chain of the table, with its own policy, accepts every packet for every rule list |
| FirewallStatus.DropCounterFromRule | pkg/network/firewallstat_linux.go:102-127 | selects exactly the first counter whose next verdict is drop |
| FirewallStatus.ListTable | pkg/network/firewallstat_linux.go:47 | the chains of one table are listed in order, those of the others not at all |
| FirewallStatus.ListChains | pkg/network/firewallstat_linux.go:47 | lists the chains of every table in the order they were added |
| FirewallStatus.SumDrops | pkg/network/firewallstat_linux.go:79-86 | sums the drop counters of a chain's rules, wrapping at 64 bits |
| FirewallStatus.SumChains | pkg/network/firewallstat_linux.go:55-94 | the snapshot of the table, or the first chain that cannot be read |
| FirewallStatus.OtherChainsCountNoDrops | pkg/network/firewallstat_linux.go:57-78 | every chain, wherever it stands, adds its number of rules, and drops only if its name is input |
| FirewallStatus.InputChainCountsDrops | pkg/network/firewallstat_linux.go:79-86 | a rule of the input chain adds the first counter that has a drop ahead with no verdict between, wrapping at 2^64 |
| FirewallStatus.StatusOfTable | pkg/network/firewallstat_linux.go:47-76 | with the table there: healthy iff the chains and the rules of each can be read, else the first that cannot is named |
| FirewallStatus.ReadFirewallStatus | pkg/network/firewallstat_linux.go:23-95 | the snapshot of any kernel state under any read failures; without the table healthy, not installed and all zero |
| FirewallHistory.TailCountsDrops | pkg/network/firewall_linux.go:142-148 | behind rules that only accept, the tail counter counts a packet iff the chain drops it |
| FirewallHistory.PassInstalled | pkg/network/firewall_linux.go:87-148 | a packet leaves the installed table as it is but for its drop counter |
| FirewallHistory.PacketKeepsInstalledTable | pkg/network/firewall_linux.go:87-148 | any packet on either hook leaves the table that history calls for |
| FirewallHistory.TableAfter | pkg/network/firewall_linux.go:58-154 | after any run the table is that of the last successful call with the drops since; other tables are untouched |
| FirewallHistory.ValidRulesAreInstalled | pkg/network/firewall_linux.go:123-134 | every validated rule reaches a chain |
| FirewallHistory.StatusAgreesWithHistory | pkg/network/firewallstat_linux.go:55-94 | after any run: 3 plus the installed rules, and the packets and bytes dropped since the last successful call |
| FirewallHistory.RejectedMeansNotLetIn | pkg/network/firewall_linux.go:87-148 | what the drop counter counts is what the code of no rule lets in |
| FirewallHistory.RejectedMeansNotAdmitted | pkg/network/firewall_linux.go:87-148 | without mapped networks, what the rules do not admit |
| FirewallHistory.LastCallDecides | pkg/network/firewall_linux.go:58-154 | the table depends on the last successful call and the drops since, not on the starting kernel state |
| FirewallHistory.FailedCallsLeaveNoTrace | pkg/network/firewall_linux.go:124-127 | any run, with its failed calls struck out, gives the same kernel state, last call and drops |
| FirewallHistory.ReapplyResetsOnlyTheCounter | pkg/network/firewall_linux.go:142-148 | applying the same rules again after any run gives the kernel state of the first time, its counter at zero |
| FirewallVerdict.OneMoreCall | pkg/network/firewall_linux.go:58-154 | a further call counts as the last successful one, and clears the drops, iff no call into the kernel fails and every rule compiles |
| FirewallVerdict.VerdictAfter | pkg/network/firewall_linux.go:82-154 | after any run with a successful call, under the policies of the installed chains: no packet is dropped on its way out, and one is let in iff established, related, over lo, or accepted by the code of an ingress rule of the last successful call |
| FirewallVerdict.VerdictIsMeaning | pkg/network/firewall_linux.go:82-154 | for named interfaces and no mapped network: iff established, related, over lo, or allowed by an ingress rule |
| FirewallVerdict.DropsAreVerdicts | pkg/network/firewall_linux.go:142-148 | a packet adds to the reported drops iff the kernel's hook drops it |
| FirewallVerdict.IdleStatus | pkg/network/firewallstat_linux.go:43-47 | before any successful call, on a kernel without the table, nothing changes and the status is healthy, not installed and all zero |
| LifecycleSafety.StepKeepsSafe | pkg/supervisor/supervisor.go:63-258 | every step of every thread keeps the invariant |
| LifecycleSafety.EveryRunIsSafe | pkg/supervisor/supervisor.go:63-258 | the invariant holds after every interleaving, failure, dropped event and pid reuse |
| LifecycleSafety.IndexIsSound | pkg/supervisor/supervisor.go:135-188 | at most one pid entry per container, none for a done one, and done is never closed twice |
| LifecycleSafety.RunReturnsWhenIdle | pkg/supervisor/supervisor.go:84-92 | Run returns nil only when every container is done and no pid is registered |
| LifecycleSafety.SpecIsAlwaysFound | pkg/supervisor/supervisor.go:174-179 | the branch for a container missing from the spec is unreachable, and no lookup misses |
| LifecycleAccounts.DoneIsFinal | pkg/supervisor/supervisor.go:174-186 | no step takes a closed done back |
| LifecycleAccounts.StartsBalance | pkg/supervisor/supervisor.go:135-161 | starts equal handled exits plus the current entry plus lost registrations, over every run |
| LifecycleAccounts.StartsEqualExitsIffNoneLost | pkg/supervisor/supervisor.go:135-161 | starts equal handled exits plus the current entry iff nothing was lost |
| LifecycleAccounts.PolicyBoundsStarts | pkg/supervisor/supervisor.go:174-202 | a never-restart container starts at most once, an on-failure one at most once more than it failed |
| LifecyclePolicy.DecidesByPolicy | pkg/supervisor/supervisor.go:174-202 | over every run: the consumer restarts iff the container is not stopped and its policy is always, or on-failure and the exit has a code or a signal; else it closes done |
| LifecyclePolicy.StartsFollowExits | pkg/supervisor/supervisor.go:151-188 | over every run, whatever fails: one more start for each handled exit, but for the one at hand and the one that closed done |
| LifecyclePolicy.PolicyFixesStarts | pkg/supervisor/supervisor.go:151-202 | without sweep or failed restart: under always done stays open and starts follow all exits, under on-failure the failing ones, else there is one start |
| LifecyclePolicy.AlwaysEndsOnlyByFailure | pkg/supervisor/supervisor.go:174-202 | done of an always-restarted container that was not swept closes only after a restart of it has failed, and the run shows where |
| LifecyclePolicy.RunWaitsForStarted | pkg/supervisor/supervisor.go:63-92 | Run takes the containers up in order, each after the one before has started, and waits only when all have |
| LifecyclePolicy.PushInNumbers | pkg/supervisor/reaper.go:83-88 | an event is kept iff fewer than 64 wait in the channel |
| LifecycleStop.SweptContainersStartOnceMore | pkg/supervisor/supervisor.go:190-225 | whenever Stop sweeps, the containers with a record complete at most one further start, all together |
| LifecycleStop.StopAllowsOneMoreStart | pkg/supervisor/supervisor.go:190-225 | after the sweep of a pod whose containers have all been started at most one further start completes in the whole pod |
| LifecycleStop.EarlyStopLeavesOnlyRestarted | pkg/supervisor/supervisor.go:233-258 | over every run, every pid that an early return leaves registered is that of a container started at least twice |
| LifecycleEarlyStop.OverlookedIsRestarted | pkg/supervisor/supervisor.go:233-258 | at an early return, a started process whose exit was not handled is that of a container started before, and registered again or being restarted |
| LifecycleEarlyStop.EarlyStopIsCleanIffIdle | pkg/supervisor/supervisor.go:233-258 | at an early return every started process has been handled iff no pid is registered and none is about to be; so if no container was or is being restarted |
| LifecycleEarlyStop.EarlyStopCanLeaveOneAlive | pkg/supervisor/supervisor.go:249-258 | in every pod whose containers all have bundles, any restarted one can live on after an early return |
| LifecycleEarlyStop.EarlyStopFailsIff | pkg/supervisor/supervisor.go:174-258 | an early return can find a started process alive iff all containers have bundles and one is restarted |
| LifecycleLosses.EarlyStopFailsLaterIff | pkg/supervisor/supervisor.go:64-78 | a started process can live at some time after an early return iff the first container has a bundle |
| LifecycleLosses.StartCanBeLostIff | pkg/supervisor/supervisor.go:131-141 | a start can go unregistered or be overwritten iff the first container has a bundle |
| LifecycleLosses.ExitCanBeDroppedIff | pkg/supervisor/reaper.go:83-88 | with true pids and none reused, an exit of a container can be dropped iff the first container has a bundle |
| LifecycleReturn.StepKeepsStranded | pkg/supervisor/supervisor.go:84-188 | no step of any thread takes up a stranded container again |
| LifecycleReturn.StrandedNeverReturns | pkg/supervisor/supervisor.go:84-92 | once a container is stranded, Run never returns nil |
| LifecycleReturnPath.RunCanReturnIffNoneStranded | pkg/supervisor/supervisor.go:63-188 | from a state in which Run is under way and the reaper works, some run returns nil iff all containers have bundles and none is stranded |
| LifecycleTracking.EveryTruthfulRunTracks | pkg/supervisor/supervisor.go:75-188 | with true pids, not reused while in flight, every registration names a process of that container whose exit was not handled |
| LifecycleTracking.WrongExitIffStale | pkg/supervisor/supervisor.go:152-162 | a received exit is handled for the container its process was started for iff the entry of its pid is not stale |
| LifecycleExits.EveryHonestRunTracks | pkg/supervisor/supervisor.go:75-188 | with no reuse of a registered pid either, no entry is ever taken for another process, and dropped ones keep theirs |
| LifecycleExits.OnlyDroppedExitsAreMissed | pkg/supervisor/supervisor.go:139-188 | a container exit is handled, once and for the right container, iff it was collected, has left the channel and was not dropped; a dropped one leaves its pid registered |
| LifecycleExits.AllHandledIffIdle | pkg/supervisor/supervisor.go:135-162 | every started process has been handled iff no pid is registered and none is about to be |
| LifecycleExits.NoExitIsMissed | pkg/supervisor/supervisor.go:75-188 | with room in the channel each container exit that has left it was handled exactly once and for the right container |
| LifecycleExits.ReceivedExitIsRegistered | pkg/supervisor/supervisor.go:75-80 | an exit event never reaches the consumer before its pid is registered |
| LifecycleTracking.PushKeepsTracking | pkg/supervisor/reaper.go:83-88 | handing an event to a channel with room loses none |
| LifecycleTracking.DropKeepsTracking | pkg/supervisor/reaper.go:84-88 | a full channel loses the event at hand and no other |
| Supervisor.Supervisor.constructor | pkg/supervisor/supervisor.go:47-57 | starts with empty maps |
| Supervisor.Supervisor.Insert | pkg/supervisor/supervisor.go:65-73 | adds a fresh record and touches no other |
| Supervisor.Supervisor.Register | pkg/supervisor/supervisor.go:135-142 | counts the start and maps the pid if there is one; other containers are as before |
| Supervisor.Supervisor.TakeExit | pkg/supervisor/supervisor.go:153-162 | an unknown pid changes nothing; a known one is removed and its exit recorded |
| Supervisor.Supervisor.ShouldRestart | pkg/supervisor/supervisor.go:190-202 | true iff not stopped and always, or on-failure with a code or a signal; the policy the protocol uses |
| Supervisor.Supervisor.FindSpec | pkg/supervisor/supervisor.go:204-211 | finds the first container with the id iff one is declared |
| Supervisor.Supervisor.CloseDone | pkg/supervisor/supervisor.go:186 | closes one container's done, which must be open |
| Supervisor.Supervisor.Sweep | pkg/supervisor/supervisor.go:217-225 | stops every container, changes nothing else, and lists each id once, in whatever order |
| Supervisor.Supervisor.AllExited | pkg/supervisor/supervisor.go:249-258 | true iff every record has an exit, in the object and in the protocol alike |
| Supervisor.Reaper.Drain | pkg/supervisor/reaper.go:74-90 | while the consumer takes events at any pace: what it gets, what stays in the channel and what is dropped |
| Supervisor.DrainKeepsOrder | pkg/supervisor/reaper.go:83-88 | the consumer gets the events in order, none but the dropped ones missing |
| Supervisor.DrainConserves | pkg/supervisor/reaper.go:83-88 | every zombie is kept or dropped, once |
| Supervisor.DrainFits | pkg/supervisor/reaper.go:83-88 | the channel of 64 never overflows, and nothing is dropped if all fit |
| PodSpec.Validate | pkg/pod/spec.go:135-154 | none iff ids are present, unique and have a rootfs; else the first fault |
| Bytes.LittleEndianInNumbers | pkg/network/netlink.go:276-277 | each byte of a field counts 256 times as much as the one before it |
| Netlink.LittleEndianRoundTrip | pkg/network/netlink.go:276-277 | little-endian fields read back |
| Netlink.PadAttr | pkg/network/netlink.go:279-282 | pads with zeros to the next multiple of four and no further |
| Netlink.AttrsRoundTripIffFit | pkg/network/netlink.go:274-284 | the parser returns exactly the written attributes in order iff every value is under 65532 bytes |
| Netlink.NlMsg.constructor | pkg/network/netlink.go:260-267 | a 16-byte aligned header |
| Netlink.NlMsg.Append | pkg/network/netlink.go:269-272 | appends and pads; the buffer is aligned |
| Netlink.NlMsg.AppendAttr | pkg/network/netlink.go:274-284 | appends one encoded attribute; the buffer stays aligned |
| Netlink.NlMsg.Pad | pkg/network/netlink.go:286-290 | fills up with zeros to a multiple of four |
| Netlink.NlMsg.Bytes | pkg/network/netlink.go:292-296 | only the length field changes, to the buffer's length |
| Netlink.FrameRoundTrip | pkg/network/netlink.go:256-296 | an aligned message that reads back, header length included, iff values and message fit their length fields |
| Netlink.WireBytes | pkg/network/netlink.go:256-296 | the bytes of a short message with two aligned attributes, one for one |
| Netlink.AddressInNumbers | pkg/network/netlink.go:176-194 | IPv4, four bytes or mapped, goes out as four bytes of family 2, other addresses as sixteen of family 10 |
| Netlink.IndexInNumbers | pkg/network/netlink.go:183 | the index as four little-endian bytes, negative ones counted from 2^32 |
| Netlink.LinkUp | pkg/network/netlink.go:144-164 | the 32 bytes on the wire, which read back as the interface, raised, with no attributes |
| Netlink.AddrAdd | pkg/network/netlink.go:167-197 | the bytes on the wire: family 2 with the four bytes of an IPv4 or mapped address, else 10 with sixteen, as local (2) and then as peer (1); they read back |
| Netlink.DefaultRoute | pkg/network/netlink.go:200-236 | the bytes on the wire: a unicast default route in the main table, gateway (5) in the form of its family and interface (4); they read back |
| Text.SplitOfJoin | cmd/weft-init/main.go:389-424 | splitting undoes joining for parts free of the separator |
| Text.SplitInWords | cmd/weft-init/main.go:389-424 | a text without separator is one part; else the text in front of the first separator comes first |
| Text.DecimalIsInjective | cmd/weft-init/main.go:401 | different numbers print differently |
| Text.ParseOfDecimal | pkg/bundler/bundler.go:331-336 | printing then parsing returns the number, saturating at the type's maximum |
| Text.DecimalByPlace | pkg/pod/imageconfig.go:90 | the last digit is the remainder by ten, behind the digits of the quotient |
| Text.ParseRejects | pkg/bundler/bundler.go:331-336 | an empty text or one with a foreign character reads as 0, unless the digits before it overflow |
| Env.Sort | pkg/bundler/bundler.go:396 | sorted, and the same elements |
| Env.SortedInWords | pkg/bundler/bundler.go:396 | sorted order is ascending: a proper beginning comes first, else the smaller character at the first difference |
| Env.SortedEnumeration | pkg/bundler/bundler.go:391-396 | sorting any enumeration of a set of keys gives one and the same sequence |
| Env.RemainingKeys | pkg/bundler/bundler.go:390-395 | the keys no default consumed, each once, in any map order |
| Env.OverrideDefaults | pkg/bundler/bundler.go:375-387 | every default in place, overridden where its key is, and the keys that were |
| Env.MergeEnv | pkg/bundler/bundler.go:372-401 | the whole result, the same for every map order: defaults in place with their keys' overrides, then an entry for each key no default binds, in strictly ascending order |
| Env.BindingInWords | pkg/bundler/bundler.go:372-401 | the last entry that starts with a key and an equals sign gives its value, as a program sees it |
| Env.MergeOverridesIffPlain | pkg/bundler/bundler.go:372-401 | the last binding of every key is the override, else the last default, iff no override key holds an equals sign |
| Env.DefaultsStayInPlace | pkg/bundler/bundler.go:375-387 | for every override map: malformed and kept defaults survive in place word for word, others keep place and key |
| Env.MergeKeepsKeysOnce | pkg/bundler/bundler.go:372-401 | keys are duplicate-free if those of the defaults are |
| ImageConfig.SplitEnv | pkg/pod/imageconfig.go:76-84 | keys never hold an equals sign |
| ImageConfig.FillEnv | pkg/pod/imageconfig.go:76-84 | the nested scan builds the map of last bindings |
| ImageConfig.EnrichFromImage | pkg/pod/imageconfig.go:61-93 | field by field: the image's command; workdir, user and env if they were empty, env as its last bindings, user as uid:gid and empty for root; on every error and for a container with a command nothing changes |
| ImageConfig.ImageEnvSurvives | pkg/pod/imageconfig.go:75-85 | merged onto any defaults, each key has its last image value, else its last default |
| ImageConfig.UserRoundTrip | pkg/bundler/bundler.go:326-337 | parseUser returns the image's uid and gid from the field it left, 0:0 included |
| ImageConfig.LoneUser | pkg/bundler/bundler.go:335-336 | a lone number stands for both ids |
| ImageConfig.UserInWords | pkg/bundler/bundler.go:326-337 | two numbers with a colon between them are the two ids, saturating at 32 bits; no text is 0:0 |
| CrunState.FindsFirst | pkg/runtime/crun/crun.go:143-149 | the search returns the first place where the key occurs, or none |
| CrunState.ParseState | pkg/runtime/crun/crun.go:140-160 | the text behind the first status key up to the next quote, and the number behind the first pid key |
| CrunState.ParseStatus | pkg/runtime/crun/crun.go:143-148 | that text, empty without key, without closing quote or with nothing in between |
| CrunState.ParsePid | pkg/runtime/crun/crun.go:149-158 | that number, zero without key or digits |
| CrunState.ScanPid | pkg/runtime/crun/crun.go:151-157 | the scanning loop takes the longest run of digits |
| CrunState.MissingKeys | pkg/runtime/crun/crun.go:140-160 | a text without the status key has no status, one without the pid key the pid 0 |
| CrunState.StatusInWords | pkg/runtime/crun/crun.go:143-148 | the text between the first status key and the next quote, none without that quote |
| CrunState.PidInWords | pkg/runtime/crun/crun.go:149-158 | the number behind the first pid key, saturating at 63 bits; 0 without digits |
| CrunState.KeysComeAfterId | pkg/runtime/crun/crun.go:143-149 | nothing in front of the pid field is taken for a key, whatever version and id say |
| CrunState.ParsesDocumentedShape | pkg/runtime/crun/crun.go:136-160 | the documented shape yields exactly its status and its pid |
| Cmdline.StripsOneHint | cmd/weft-init/main.go:484-489 | exactly one transport hint is removed; a value without colon passes through |
| Cmdline.MountRoundTrip | cmd/weft-init/main.go:416-433 | printing then parsing a mount directive returns it iff tag and path hold no colon |
| Cmdline.MountDirectiveInWords | cmd/weft-init/main.go:416-433 | a mount directive needs two colons: hint, tag, path |
| Cmdline.MountModeInWords | cmd/weft-init/main.go:416-433 | a fourth field makes it read-only iff it is ro; what follows is ignored |
| Cmdline.ParsedIsExpressible | cmd/weft-init/main.go:388-410 | what parses has a non-empty first master, volume and path, and colon-free fields |
| Cmdline.CubeFSRoundTrip | cmd/weft-init/main.go:388-410 | printing then parsing a CubeFS directive returns it iff its fields are expressible |
| Cmdline.CubeFSDirectiveInWords | cmd/weft-init/main.go:388-410 | masters, volume and path, none empty, the first master neither; the id counts the directives |
| Cmdline.CubeFSModeInWords | cmd/weft-init/main.go:388-410 | a fourth field makes it read-only iff it is ro; what follows is ignored |
| Cmdline.CmdlineValues | cmd/weft-init/main.go:464-476 | every value of the key in order |
| Cmdline.ValuesInWords | cmd/weft-init/main.go:464-476 | a token key=v contributes exactly v, any other token nothing |
| Cmdline.CmdlineValue | cmd/weft-init/main.go:513-527 | the first of them, or empty |
| Cmdline.ShareMountIdsAreDistinct | cmd/weft-init/main.go:348-355 | share mounts have distinct ids, skipped directives or not |
| Cmdline.ExtractContainerMounts | cmd/weft-init/main.go:440-459 | one bind mount per well-formed directive, in order, read-only iff the share is |
| Cmdline.CollectShares | cmd/weft-init/main.go:322-339 | the rootfs share, then the share of each well-formed directive |
| Cmdline.CollectShareMounts | cmd/weft-init/main.go:345-366 | the share mounts of the well-formed directives and one bind mount for each |
| Cmdline.SharesInWords | cmd/weft-init/main.go:322-366 | a directive that does not parse adds nothing, one that does its share or share mount at the end |
| Cmdline.CoherentInWords | cmd/weft-init/main.go:347-375 | each share but the first, and then each share mount, is bound at its own path with options bind, and ro iff read-only |
| Cmdline.SynthSingleContainerPod | cmd/weft-init/main.go:306-377 | none iff there is no rootfs tag; else one container main without restart policy on the share at /run/weft/rootfs/main, whose mounts match the other shares one for one and in order |
| CubeFS.StepKeepsSound | pkg/cubefs/mount.go:35-206 | every step of every thread keeps ownership |
| CubeFS.EveryClientHasOneOwner | pkg/cubefs/mount.go:172-206 | with the lock free, a client that runs or waits to be reaped belongs to exactly one entry, and so does an open log |
| CubeFS.HolderIsNeverStuck | pkg/cubefs/mount.go:43-45 | Unmount and a timed-out Mount always wait for a process that is on its way out |
| CubeFS.EveryClientIsReapedOnce | pkg/cubefs/mount.go:93-96 | with nothing mounted and the lock free, every client ever launched has been reaped, exactly once, and no log is open |
| CubeFSLog.LastSettlingEventDecides | pkg/cubefs/mount.go:172-191 | in the fold, an id's last call that was not blocked decides about it, whatever failed before |
| CubeFSLog.RunKeepsAgreement | pkg/cubefs/mount.go:172-206 | the registry shows the fold of its log at every moment, less the id being mounted |
| CubeFSLog.RegistryIsItsLog | pkg/cubefs/mount.go:172-206 | an id has an entry iff the last call that settled it mounted it, and then at that call's path |
| CubeFSLog.CompactionFolds | pkg/cubefs/mount.go:172-191 | keeping only each id's last message folds to the same map |
| CubeFSLog.KeepsOneEach | pkg/cubefs/mount.go:169-171 | a compacted log has messages of the log only, one for each id |
| CubeFSLog.KeepsTheLast | pkg/cubefs/mount.go:169-171 | and that is the id's last |
| CubeFSLog.OneMessageDropped | pkg/cubefs/mount.go:172-191 | a message that is not its id's last may be dropped from the fold |
| CubeFSCooperation.CooperationSucceeds | pkg/cubefs/mount.go:172-191 | if helpers work, clients start and mount in time and no mount vanishes, every call succeeds, in any interleaving |
| CubeFSCooperation.EveryLogCanBePublished | pkg/cubefs/mount.go:172-191 | for every publish log there is such a run |
| CubeFSCooperation.CompactedRunsAgree | pkg/cubefs/mount.go:172-191 | such runs over a log and over its compacted form end with the same shares at the same paths |
| CubeFSCooperation.LostMessageIsHarmless | pkg/cubefs/mount.go:172-191 | so do such runs over a log and over the log without one message that is not its id's last |
| CubeFSCalls.CallEndsAs | pkg/cubefs/mount.go:169-191 | a call keeps the old mount iff blocked as it begins, and mounts nothing iff its client then fails; so when a repeated message succeeds |
| CubeFSCalls.DetachInWords | pkg/cubefs/mount.go:35-51 | taking out an entry takes at most its mount, which needs a helper and a mount, and ends its client and no other |
| CubeFSCalls.OutcomeInWords | pkg/cubefs/mount.go:172-191 | what holds as each outcome is recorded: a mount at the path and an entry with its own client; no entry and no client; or the old entry without a client |
| CubeFSCalls.VanishedMountBlocks | pkg/cubefs/mount.go:176-180 | an id whose mount has vanished keeps its entry, and every call for it is blocked, until its path is a mount again |
| CubeFSCalls.EveryShareCanGetStuck | pkg/cubefs/mount.go:176-180 | every message that mounts can lead there |
| CubeFSRegistry.Registry.constructor | pkg/cubefs/mount.go:167 | empty |
| CubeFSRegistry.Registry.StopClient | pkg/cubefs/mount.go:37-49 | the client is reaped and its log closed, running or not |
| CubeFSRegistry.Registry.Unmount | pkg/cubefs/mount.go:35-51 | the client goes even if the mount stays; reports whether the mount went |
| CubeFSRegistry.Registry.Mount | pkg/cubefs/mount.go:56-107 | an entry only with something mounted at its path afterwards; a client that starts while nothing is ends reaped with its log closed and no entry |
| CubeFSRegistry.Registry.TakeOut | pkg/cubefs/mount.go:176-181 | the old entry goes iff it could be detached |
| CubeFSRegistry.Registry.PutIn | pkg/cubefs/mount.go:185-190 | the new entry appears iff the client starts and its path is a mount; else its process is reaped |
| CubeFSRegistry.Registry.Apply | pkg/cubefs/mount.go:172-191 | case by case: blocked, unmounted, mounted with its path a mount, or failed with the new client reaped; the error and the whole registry in each, no other client touched |
| CubeFSRegistry.OutcomeInWords | pkg/cubefs/mount.go:172-191 | which of these cases it is, from the entries, the mounts and the client's fate |
| CubeFSRegistry.CallFollowsLog | pkg/cubefs/mount.go:172-191 | a call changes what the registry shows as its log event changes the fold, and no other id |
| CubeFSRegistry.Registry.Discard | pkg/cubefs/mount.go:199-204 | one entry goes with its client and log, even if its mount does not |
| CubeFSRegistry.Registry.UnmountAll | pkg/cubefs/mount.go:195-206 | nothing is held afterwards; the mounts left at every path; an error iff some entry has no working helper or its path too few mounts, and then about such an entry |

## Left out

- CIDR text: prefixes start from parsed family, bytes and length. Validate and the compiler use two different
  parsers (pkg/pod/firewall.go:105, pkg/network/firewall_linux.go:192); both are taken to accept the same texts.
- The packet filter library and the kernel: an atomic batch and the meaning of the expressions stand for them.
  Registers other than 1, tables of other names and their verdicts, chain priorities and sets are not modelled.
- FirewallChains.InputChainDecides: takes interface names as the kernel makes them, shorter than 16 bytes and
  free of NUL, and rules whose IPv6 network is not an IPv4-mapped one; InputChainMeaning does without both.
- FirewallHistory.StatusAgreesWithHistory: is about reads that do not fail; failing reads are covered by
  ReadFirewallStatus. The number of rules is the source's int, taken as unbounded.
- FirewallHistory.LastCallDecides: supposes the two runs dropped the same packets and bytes since, because the
  table holds the counter.
- LifecycleExits.OnlyDroppedExitsAreMissed: supposes, step by step, that the runtime reports the true pid, and that
  no pid is given out again that an event under way, the pid index or a registration to come still holds. With a
  wrong or overwritten pid, LifecycleAccounts.StartsBalance counts the registrations that are lost.
- LifecycleExits.NoExitIsMissed: supposes room in the channel. A dropped event changes nothing that
  StartsBalance counts: its container still counts as registered.
- LifecycleEarlyStop.EarlyStopIsCleanIffIdle: supposes true pids in the same way, as do the other results there but
  the run that EarlyStopCanLeaveOneAlive builds, which meets these conditions.
- LifecycleStop.StopAllowsOneMoreStart: supposes that Run has started every container, for the start loop does not
  look at the stopped flag; SweptContainersStartOnceMore does without, and speaks of the containers with a record.
- LifecycleReturnPath.RunCanReturnIffNoneStranded: supposes that the reaper has not closed its channel. It says that a
  return is possible, not that it comes.
- Supervisor.Supervisor.ShouldRestart: the unlocked read of the stopped flag is taken as atomic.
- Supervisor.Reaper.Drain: the consumer takes events between two offers, not during one.
- PodSpec.Validate: stops before the share mounts (pkg/pod/spec.go:155-159).
- Logging, the runtime's Delete and Kill calls, start times and exit resource usage: nothing in the protocol
  depends on them.
- Wall-clock time: the grace deadline and the mount timeout fire at any moment.
- Netlink on a big-endian host, and the socket itself; message fields follow the code's little-endian layout.
- Netlink.AddrAdd: takes addresses of 4 or 16 bytes, as the parsed text gives them.
- Env.Sort: an insertion sort stands for the library's sort; strings are sequences of characters, not bytes.
- CrunState.ParsesDocumentedShape: version, id and status hold no quote; the search knows no JSON escapes.
  Numbers are those of a 64-bit host.
- Kernel command line: reading /proc/cmdline and splitting it into tokens; error messages are reduced to their absence.
  The pod that is made up is not claimed to pass validation.
- CubeFS mounts: directories, the client's configuration and the process table are reduced to whether the client
  starts; detaching and killing are one step. A mount that some other process put at the path counts as the
  client's, as it does in the code (pkg/cubefs/mount.go:97).
- CubeFSCooperation.CompactedRunsAgree: speaks of the registry; two ids may share a path if each client's mount is
  seen on top of the others', which it is by itself when active paths are distinct. What else the kernel's mount
  table holds is not claimed.
- CubeFSRegistry.Registry.UnmountAll: the source's returned error is reduced to the id it is about.
- CubeFSRegistry.Registry.Mount: one call runs alone; clients that exit meanwhile are covered by the state machine.
- Loops of one source function are split into methods of their own where that keeps proofs short: ApplyFirewall,
  ReadFirewallStatus, mergeEnv, EnrichFromImage, synthSingleContainerPod, addrAdd and defaultRoute, and Apply.
- WireGuard, vsock transport, mounts, bundles other than environment and user, resolv.conf, power-off: thin
  wrappers around system calls.
