# Verified model of shorewall-nft

shorewall-nft compiles a Shorewall configuration into an nftables ruleset and a
runtime shell script, and keeps multi-provider routing in step with its links.
This project models the parts of it that carry unbounded properties and proves
those properties in Dafny. `dafny verify dfyconfig.toml` checks all of it.

| Files | What they model |
|---|---|
| `Columns`, `Nft`, `Zones`, `ZoneReading`, `Emit`, `EmitRules`, `EmitTable`, `EmitLayers`, `EmitDispatch`, `EmitReading`, `EmitShape`, `Emitter` | The zone and policy compiler. `Zones` reads a configuration directly: the claims a packet meets, the section ladder, the first-match policy. `Nft` evaluates a table of chains. `Emit` specifies the emitted chains, `Emitter` is the class that appends them, and `EmitDispatch.CompilerCorrect` shows that table and configuration agree on every packet; `EmitReading` restates the verdict by who owns the packet's interfaces, `ZoneReading` by the lines of the files, and `EmitShape` says what form the output has. |
| `Knock`, `KnockExact` | Port knocking: the emitted first-match rules over address sets, the automaton they implement, and whole runs of packets, expiries and connections. `KnockExact` settles which shared steps break a knock. |
| `Lsm`, `Failover`, `FailoverLaws` | The link monitor's hysteresis and status file, and the failover protocol as interleaved operator verbs, link changes, deferred disables and daemon restarts. `FailoverLaws` says what verbs and links decide. |
| `Routing`, `RoutingRebuild`, `RoutingEgress`, `RoutingClaims` | The clear, build and restore programs as commands over policy rules and tables, what every rebuild determines, and the route a packet takes, unclaimed or claimed by a mark, a source or an rtrule. |
| `Netmap`, `NetmapLines` | NETMAP parsing and conflict checks, and the prefix translation they make unambiguous. |
| `Reader` | The configuration reader: continuation lines and the conditional stack machine against a block tree. |
| `Chunk`, `Split`, `SplitRead`, `SplitLossless` | The ruleset splitter, its byte budgets, a reader of the texts it writes, and the reconstruction of the table from them. |
| `Text`, `Wrappers` | Decimal text and result types. |

## Results that differ from what one might expect

- An IPv4 configuration whose default action uses AllowICMPs, and none of whose
  rules does, jumps to a chain that is never emitted, so the table does not load
  (`EmitLayers.LoadsExactly`, `EmitLayers.NotLoaded`).
- A knock sequence whose first step recurs later can never authorise anybody,
  because the restart rule comes first (`Knock.OpensExactly`). Two knock rules
  that share a step do not act independently (`Knock.ParallelExactly`), and a
  source can then reach the final stage over a gap (`KnockExact.SharedStepGap`).
  Which sharing is safe is settled for every stage (`KnockExact.EarnedExactly`)
  and for the final stage alone (`KnockExact.FinalExactly`), for any set of
  packets that can occur.
- The guard on the last enabled provider compares lists of names, so it protects
  it exactly when names are distinct (`Failover.ProtectedExactly`). A daemon
  restart while a link is down can strand any provider that is monitored and is
  not the only one (`Failover.StrandedExactly`), and strands exactly those that
  are owned (`Failover.RestartStrandsExactly`). A `--once` cycle forgets which
  disables were deferred by the one before (`FailoverLaws.RestartForgets`).
- A default route taken out of main by one rebuild is put back by no later one,
  even with every provider down (`RoutingEgress.NotPutBack`), and then nothing
  routes the packet (`RoutingEgress.Blackholed`); the source comment at
  `src/shorewall_nft/script.py:277-280` is about the first, all-down boot.
- NETMAP refuses as conflicting some pairs that translate every packet one way:
  exactly those with overlapping prefixes and different NET2 that move addresses
  equally far, or whose exclusions are joint (`Netmap.RefusedExactly`,
  `Netmap.EqualShiftRefused`, `Netmap.JointExclusionsRefused`). It accepts files
  whose order matters when qualifiers differ (`Netmap.FileOrderExactly`).
- A configuration file that ends in continued lines, not all of them a bare
  backslash, silently loses what they hold (`Reader.DroppedExactly`). A logical
  line that begins with bare backslashes is numbered after them
  (`Reader.JoinStarts`).
- The chunk budget counts characters (`Chunk.SizeIsBytesExactly`).

## Assumptions

- Compiler: concrete interfaces, each physical interface in one zone; distinct
  zone names without a 2 that are no catch-all word or its plus spelling; policy
  lines that name zones or catch-alls. Rule matches other than addresses and
  conntrack state are opaque tests of the packet, and `reject_action` is a
  verdict.
- Knocking: a stage set element may vanish at any moment; nothing relies on
  `add` refreshing a timer. Which packets can occur is a parameter; that unsafe
  sharing does break knocks is shown for sources that can meet each rule on its
  own. Stage sets of different rules have different names.
- Routing: explicit gateways; at most 10000 providers, so that mark prefs stay
  below 20000; at the start the single-delete prefs hold at most the compiler's
  own rule, once. `ip rule del` removes the first rule that meets the selectors
  it is given, an any-address selector comparing nothing; `ip rule add` appends.
  For the route a packet takes also: table numbers outside 250 to 255 and
  distinct; for an unclaimed packet no routes file line into 250, 253 or main's
  default, and the stock rule 32767 present with no rtrule at that priority.
- Splitting: the table is printed as the emitter prints it, one statement a line
  with headers before rules and elements eight to a row; chain names are
  distinct, and set names are; names are single words, elements are non-empty
  without commas, spaces or braces, and no declaration or rule is a comment, a
  `table` line or a lone brace. Collapsing networks covers the same addresses
  and yields elements of that form.

## Model

| member | source | states |
|---|---|---|
| `EmitDispatch.CompilerCorrect` | src/shorewall_nft/emit.py:919-1027 | for every accepted configuration, every order of the shared chains, hook and packet, the loaded table gives the verdict of reading the configuration directly: the opening of the hook, then the zones, then drop |
| `EmitDispatch.HookExact` | src/shorewall_nft/emit.py:1249-1280 | each hook of a linked table (loopback, needed ICMP, filters, dispatch, chains, base drop) agrees with the direct reading for every packet |
| `EmitDispatch.SideExact` | src/shorewall_nft/emit.py:1379-1434 | input and output dispatch offers a packet to the address-scoped claims in order, then to the whole-interface claim, CONTINUE passing it on |
| `EmitDispatch.ForwardExact` | src/shorewall_nft/emit.py:1436-1533 | forward dispatch offers a packet to the zone pairs by rank, then declaration order, duplicate lines removed, map or cascade alike |
| `EmitReading.FlatForward` | src/shorewall_nft/emit.py:1436-1533 | with no hosts entries the pair of zones owning the two interfaces decides a forwarded packet, and none does back out of one interface without routeback |
| `EmitReading.ForwardReading` | src/shorewall_nft/emit.py:1436-1533 | for any hosts file, a forwarded packet is offered, zones in file order, to the pairs whose hosts entries hold both its addresses, then to those where they hold one and the other interface is owned, then to the owners of both interfaces; within a zone only if an interface says routeback or the zone has two |
| `EmitReading.SideReading` | src/shorewall_nft/emit.py:1379-1434 | for any hosts file, a packet to or from the firewall is offered to the zones whose hosts entries hold its address, in file order, then to the owner of its interface |
| `EmitReading.FlatSide` | src/shorewall_nft/emit.py:1379-1434 | over an interface without hosts entries its owner decides what reaches or leaves the firewall |
| `EmitReading.WholesRead` | src/shorewall_nft/emit.py:1436-1526 | whatever the hosts entries, the whole-interface pairs together give the verdict of the owners of the two interfaces |
| `EmitReading.WholeDispatched` | src/shorewall_nft/emit.py:1448-1456 | two whole claims make a forward pair unless they are one interface without routeback |
| `ZoneReading.PolicyRead` | src/shorewall_nft/emit.py:1224-1245 | the policy of a pair is the first line whose labels cover both zones, within a zone only one that names it twice or uses a plus form; else accept within a zone, and no policy between two |
| `ZoneReading.NewByPolicy` | src/shorewall_nft/emit.py:1176-1208 | a new packet no rule decides gets the verdict of the first policy line for its zones, after that verdict's default action |
| `ZoneReading.DispositionRead` | src/shorewall_nft/emit.py:1157-1185 | DROP, REJECT and ACCEPT each run their own default action before the verdict; QUEUE, CONTINUE, NONE and a line that opts out run none |
| `ZoneReading.SectionRead` | src/shorewall_nft/emit.py:1136-1138 | a section decides by the first rule in file order that is for both zones or all, matches the packet and decides it |
| `ZoneReading.ColumnsRefused` | src/shorewall_nft/emit.py:429-473 | a configuration is refused for its columns exactly when a rule has an empty address column or a MAC in its destination column |
| `ZoneReading.PolicyMissing` | src/shorewall_nft/emit.py:1224-1247 | and for a missing policy exactly when two different zones that get a chain have no policy line |
| `EmitDispatch.MapRules` | src/shorewall_nft/emit.py:1390-1432 | the verdict map sends a packet exactly to the whole claim of its interface, and nothing on a scoped interface |
| `EmitDispatch.PairMapRules` | src/shorewall_nft/emit.py:1508-1526 | the pair map or cascade sends a packet to the whole-interface pair of its two interfaces and to no other |
| `EmitDispatch.PairMapYields` | src/shorewall_nft/emit.py:1515-1525 | with and without NFT_CONCAT_MAPS the unscoped pairs do the same |
| `EmitDispatch.DedupSame` | src/shorewall_nft/emit.py:1527-1533 | dropping a repeated dispatch line changes no verdict |
| `EmitShape.DedupDistinct` | src/shorewall_nft/emit.py:1527-1533 | no dispatch line is repeated and none is lost |
| `EmitShape.MapsOnlyWhere` | src/shorewall_nft/emit.py:1508-1526 | without NFT_CONCAT_MAPS no concatenated map is emitted; with it the unscoped pairs take one map line and nothing else |
| `EmitDispatch.CallPair` | src/shorewall_nft/emit.py:1140-1155 | jumping to the chain of a pair, own or shared, gives the pair its meaning |
| `EmitDispatch.WholeUnique` | src/shorewall_nft/emit.py:1034-1041 | with each physical interface in one zone, an interface has one whole claim |
| `EmitLayers.LoadsExactly` | src/shorewall_nft/emit.py:1010-1011 | the table loads, every jump to a declared lower chain, exactly when no IPv4 default action uses AllowICMPs while no rule does |
| `EmitLayers.NotLoaded` | src/shorewall_nft/emit.py:1010-1011 | an accepted two-zone IPv4 configuration with AllowICMPs as accept default and no rules gives a table that does not load |
| `EmitLayers.SortIsStable` | src/shorewall_nft/emit.py:1433-1434 | sorting the dispatch by rank keeps declaration order within a rank |
| `EmitRules.PairLinesExact` | src/shorewall_nft/emit.py:1667-1701 | a pair chain gives ALL rules, then each state section with its implicit disposition, then NEW rules, then the policy |
| `EmitRules.PolicyLinesExact` | src/shorewall_nft/emit.py:1210-1222 | a shared chain gives what the pair chain with no rules would |
| `EmitRules.SectionExact` | src/shorewall_nft/emit.py:1677-1698 | the lines of a section are its concerned rules, first match in file order, only in the state of the section |
| `EmitRules.RuleLinesExact` | src/shorewall_nft/emit.py:573-578 | the source-by-destination product of lines leaves the verdict of the rule unchanged |
| `EmitRules.InvalidExact` | src/shorewall_nft/emit.py:1650-1665 | INVALID_DISPOSITION decides exactly the invalid packets, CONTINUE none |
| `EmitRules.DispositionExact` | src/shorewall_nft/emit.py:1176-1208 | the tail runs the registered default action, then the policy verdict; CONTINUE returns |
| `EmitRules.OpeningExact` | src/shorewall_nft/emit.py:1249-1274 | the lines before the dispatch accept loopback on input and output, then run needed ICMP on IPv6, then the first filter of the hook that is met |
| `EmitRules.DefaultRegistered` | src/shorewall_nft/emit.py:888-900 | every default action a pair needs, the implicit intra-zone ACCEPT included, has a registered chain |
| `EmitRules.ComponentExact` | src/shorewall_nft/emit.py:2146-2173 | each default-action component has its stated effect |
| `EmitTable.SharingSound` | src/shorewall_nft/emit.py:1140-1155 | pairs sent to one shared chain have the same first-match policy |
| `EmitTable.SharedNotOwned` | src/shorewall_nft/emit.py:1001-1009 | a shared chain never takes the name of a pair chain |
| `EmitShape.SharedTogether` | src/shorewall_nft/emit.py:1140-1155 | pairs without rules whose first policy line is not theirs by name share the chain named after its labels, and every other pair has its own |
| `EmitTable.NamesDistinct` | src/shorewall_nft/emit.py:998-1019 | no two emitted chains have the same name |
| `EmitTable.NamesClashExactly` | src/shorewall_nft/emit.py:1145-1149 | two zone pairs ask for one chain name exactly when they are the same pair or a zone name with a 2 inside reads as two |
| `EmitTable.PlusInjective` | src/shorewall_nft/emit.py:1150-1155 | the plus spelling keeps policy labels apart |
| `EmitTable.PairsIn` | src/shorewall_nft/emit.py:1105-1116 | the pairs that get a chain, each once, and no others |
| `EmitTable.PairLoaded` | src/shorewall_nft/emit.py:1002-1009 | the chain of every pair is loaded with exactly the lines meant for it |
| `EmitTable.BlocksLinked` | src/shorewall_nft/emit.py:998-1025 | loading the emitted blocks gives exactly the intended chains |
| `Nft.EvalConcat` | src/shorewall_nft/emit.py:902-903 | appended lines are read only if the earlier ones decide nothing, so chains may be reasoned about line by line |
| `EmitterClass.Emitter.constructor` | src/shorewall_nft/emit.py:888-900 | the default-action table is built from the policies plus ACCEPT, each distinct action once |
| `EmitterClass.Emitter.EmitRule` | src/shorewall_nft/emit.py:1535-1648 | a rule appends its product of lines |
| `EmitterClass.Emitter.EmitDisposition` | src/shorewall_nft/emit.py:1176-1208 | the disposition appends the default jump and the verdict |
| `EmitterClass.Emitter.PairChainBlock` | src/shorewall_nft/emit.py:1667-1701 | the pair chain is appended line by line as specified |
| `EmitterClass.Emitter.PolicyChainBlock` | src/shorewall_nft/emit.py:1210-1222 | the shared chain is appended line by line as specified |
| `EmitterClass.Emitter.OneSidedDispatch` | src/shorewall_nft/emit.py:1379-1434 | the loops over zones and claims append the specified dispatch |
| `EmitterClass.Emitter.EmitForward` | src/shorewall_nft/emit.py:1436-1533 | the nested loops append the specified forward dispatch |
| `EmitterClass.Emitter.OpenHook` | src/shorewall_nft/emit.py:1249-1274 | the loopback line, the IPv6 jump and the filters of the hook are appended in that order |
| `EmitterClass.Emitter.HookChain` | src/shorewall_nft/emit.py:1249-1280 | a hook is closed as one block: opening, then dispatch |
| `EmitterClass.Emitter.PairChains` | src/shorewall_nft/emit.py:1002-1007 | pair chains are emitted and one pair is kept per shared name, the last |
| `EmitterClass.Emitter.Render` | src/shorewall_nft/emit.py:919-1027 | the whole filter table as specified, or a column error, or a missing policy, each exactly when it is due |
| `Columns.FanOutExact` | src/shorewall_nft/emit.py:429-473 | some alternative of a mixed column matches exactly when one listed item holds, none when negated |
| `Columns.GroupsPartition` | src/shorewall_nft/emit.py:457-463 | the match groups hold the items of the column and nothing else |
| `EmitShape.ColumnExpressible` | src/shorewall_nft/emit.py:433-473 | every clause is one nft match: addresses, MACs, or one set or country; a column takes one rule, or one for addresses, one for MACs and one per set and country |
| `Columns.ExclusionsExact` | src/shorewall_nft/emit.py:466-470 | the clauses of a negated column together exclude every listed item |
| `EmitRules.ColumnAlternativesExact` | src/shorewall_nft/emit.py:513-516 | an absent column is one alternative that always matches |
| `Knock.Emitter.EmitRule` | src/shorewall_nft/emit.py:1817-1834 | one rule per source alternative is appended, in order |
| `Knock.Emitter.EmitKnock` | src/shorewall_nft/emit.py:1859-1883 | restart, advances, then per stage the refresh and resets are appended in that order |
| `Knock.Emitter.Prerouting` | src/shorewall_nft/emit.py:1845-1885 | the loop emits exactly the rule list the automaton lemmas are about |
| `Knock.FanOutAllChain` | src/shorewall_nft/emit.py:1817-1834 | fanning out over source alternatives changes only which packets qualify |
| `Knock.KnockRefines` | src/shorewall_nft/emit.py:1854-1883 | read first-match, for any step list, the rules are: restart on the first step, else advance, else stay, else reset, else unchanged; one stage per address |
| `Knock.ChainFirst` | src/shorewall_nft/emit.py:1853-1883 | only the first knock rule that wants a packet sees it |
| `Knock.ChainStep` | src/shorewall_nft/emit.py:1836-1843 | no packet leaves an address in two stages or moves another address |
| `Knock.ParallelExactly` | src/shorewall_nft/emit.py:1853-1883 | knock rules act as independent automata on every packet exactly when they share no step |
| `Knock.RunStaged` | src/shorewall_nft/emit.py:1836-1883 | no run of packets, expiries and connections leaves an address in two stages |
| `Knock.StageHeard` | src/shorewall_nft/emit.py:1845-1885 | a source in stage i has a suffix of the step-port packets reaching the rule of the form s0, s1 one or more times, up to si |
| `Knock.StageEarned` | src/shorewall_nft/emit.py:1845-1885 | when what possible packets let the rule share with earlier rules is harmless, the same holds of all the step-port packets of the source |
| `KnockExact.EarnedExactly` | src/shorewall_nft/emit.py:1845-1885 | whatever packets can occur, every stage of rule k is earned by a contiguous knock from every state if each step on which one packet can meet both k and an earlier rule is the first step of k and k has no other reachable stage; only if, from the start alone, when each rule can also be met on its own |
| `KnockExact.FinalExactly` | src/shorewall_nft/emit.py:1845-1885 | the same for the final stage of rule k, exactly when it is the only one, or out of reach, or all that packets can share with earlier rules is the one step that every later step of k repeats |
| `KnockExact.UnrestrictedExactly` | src/shorewall_nft/emit.py:1845-1885 | when every packet can occur, both conditions read off the step lists, as two if-and-only-ifs |
| `KnockExact.SharedStepGap` | src/shorewall_nft/emit.py:1845-1885 | otherwise it need not be: a concrete run reaches the final stage over a gap |
| `Knock.RepeatBlocks` | src/shorewall_nft/emit.py:1859-1866 | a stage is unreachable when the first step recurs before it |
| `Knock.KnockingOpens` | src/shorewall_nft/emit.py:1859-1866 | packets that meet the rule and spell its steps in order, none met by an earlier rule with that step, reach stage after stage from any state |
| `Knock.OpensExactly` | src/shorewall_nft/emit.py:1859-1866 | for any rules, a sequence can authorise a source exactly when its first step does not recur |
| `Knock.OneShot` | src/shorewall_nft/emit.py:1561-1571 | with reusable=no accepted connections never exceed entries into the final stage |
| `Knock.ConnectExact` | src/shorewall_nft/emit.py:1561-1571 | a connection is accepted exactly from the final stage; it uses up its own source's knock unless the rule is reusable, and touches nothing else |
| `Knock.FreshKnockBetween` | src/shorewall_nft/emit.py:1565-1566 | between two accepts of one source lies a complete fresh sequence of what reaches the rule, and of all its packets when sharing is harmless |
| `Lsm.Monitor.constructor` | src/shorewall_nft/lsm.py:169-176 | a monitor starts up with empty runs |
| `Lsm.Monitor.Record` | src/shorewall_nft/lsm.py:178-193 | one result updates the runs and the state, and announces a change exactly when the state flips |
| `Lsm.Monitor.Check` | src/shorewall_nft/lsm.py:195-214 | the loops over targets compute the quorum, latency and loss verdict that is recorded |
| `Lsm.Monitor.Restore` | src/shorewall_nft/lsm.py:231-255 | the state word and counters are read back, unreadable ones left alone |
| `Lsm.RunLengths` | src/shorewall_nft/lsm.py:178-193 | the counters are the exact lengths of the current runs, and below threshold for the current state |
| `Lsm.StateIsLatestLongRun` | src/shorewall_nft/lsm.py:169-193 | after any trace the state is the kind of the latest run that reached its threshold, up if none |
| `Lsm.ChangesAlternate` | src/shorewall_nft/lsm.py:184-192 | announced changes alternate, starting with down |
| `Lsm.FlapBound` | src/shorewall_nft/lsm.py:178-193 | downs*down + ups*up is at most the number of checks |
| `Lsm.StatusRoundTrip` | src/shorewall_nft/lsm.py:223-255 | state and both counters survive print then parse, whatever the reader held |
| `Lsm.OnceRefinesDaemon` | src/shorewall_nft/cli.py:1929-1930 | any sequence of restore, check, write announces what one in-memory monitor does |
| `Failover.Controller.LiveNames` | src/shorewall_nft/cli.py:1868-1870 | the providers not marked down, in file order |
| `Failover.Controller.SetProvider` | src/shorewall_nft/cli.py:1861-1885 | an operator verb: unknown and only-enabled providers refused, success clears ownership |
| `Failover.Controller.FlushPending` | src/shorewall_nft/cli.py:1942-1949 | the deferred-disable loop, in whatever order the set is iterated |
| `Failover.Controller.Apply` | src/shorewall_nft/cli.py:1951-1980 | a link transition disables, defers or enables, then retries the deferred |
| `FailoverLaws.VerbDecides` | src/shorewall_nft/cli.py:1861-1885 | an operator verb that is not refused decides whether its own provider is in service, takes it from the monitor and changes no other; refused, it changes nothing |
| `FailoverLaws.VerbRefused` | src/shorewall_nft/cli.py:1863-1875 | a verb is refused for an unlisted name, for disabling the only provider in service, or for want of a running firewall, exactly then |
| `FailoverLaws.EnableHolds` | src/shorewall_nft/cli.py:1876-1884 | an enabled provider stays in service until an operator disables it or its own link fails a check, unless its disable was already deferred |
| `FailoverLaws.AlwaysHandled` | src/shorewall_nft/cli.py:1951-1963 | in every run from all up, with no restart and no operator acting on it, a provider whose link is down is out of service or deferred |
| `FailoverLaws.DeferredDone` | src/shorewall_nft/cli.py:1942-1949 | a deferred provider is disabled and owned as soon as another link comes back |
| `FailoverLaws.AlwaysFollows` | src/shorewall_nft/cli.py:1942-1980 | with checks alone, in every interleaving, a provider serves exactly when its link is up or it is the only one left, and is otherwise owned |
| `FailoverLaws.RestartForgets` | src/shorewall_nft/cli.py:1929-1933 | a restart that keeps the counters forgets a deferral exactly where the provider is still in service |
| `Failover.OthersAlive` | src/shorewall_nft/cli.py:1868-1872 | the only-enabled guard leaves another provider enabled |
| `Failover.FlushKeeps` | src/shorewall_nft/cli.py:1942-1949 | the deferred loop keeps a provider enabled and owns exactly what it disables, in every order |
| `Failover.FlushExact` | src/shorewall_nft/cli.py:1942-1949 | after the loop a pending provider is live only if it is the only live one |
| `Failover.StepSafe` | src/shorewall_nft/cli.py:1861-1980 | every step keeps: a provider enabled, owned ones disabled, pending ones with their link down |
| `Failover.AlwaysSafe` | src/shorewall_nft/cli.py:1861-1980 | so every interleaving from all providers up keeps them, restarts included |
| `Failover.ProtectedExactly` | src/shorewall_nft/cli.py:1868-1872 | the last enabled provider is protected in every run exactly when there is one and no name is listed twice |
| `Failover.DuplicateBlackholes` | src/shorewall_nft/cli.py:1870-1871 | a name listed twice lets operators disable every provider |
| `Failover.OperatorAuthority` | src/shorewall_nft/cli.py:1849-1853 | once an operator disable succeeds only an operator enable undoes it |
| `Failover.RecoveryEnables` | src/shorewall_nft/cli.py:1968-1979 | a recovering link gets back what the monitor took from it |
| `Failover.RestartStrands` | src/shorewall_nft/cli.py:1923-1933 | a daemon restart forgets the link states, so an owned provider stays disabled for as long as its link answers and no operator acts on it |
| `Failover.RestartStrandsExactly` | src/shorewall_nft/cli.py:1923-1933 | in every safe state such a restart strands exactly the providers the monitor owns |
| `Failover.StrandedExactly` | src/shorewall_nft/cli.py:1923-1980 | some run from all providers up strands a provider exactly when it is monitored and not the only one |
| `Failover.AlwaysNoticed` | src/shorewall_nft/cli.py:1968-1979 | without such a restart an owned provider always has a link in state down, so its recovery is noticed |
| `Routing.Generate` | src/shorewall_nft/script.py:94-317 | the loops yield exactly the specified build, clear and restore programs, empty when there are neither providers nor routes |
| `Routing.BuildProviderLoop` | src/shorewall_nft/script.py:158-209 | one guarded group of commands per provider, in file order |
| `Routing.PriorityLoop` | src/shorewall_nft/script.py:131 | the distinct rtrule priorities in order of first use |
| `Routing.DefaultsLoop` | src/shorewall_nft/script.py:238-301 | the hops, fallbacks and installing commands in order |
| `Routing.RtRuleLoop` | src/shorewall_nft/script.py:214-236 | one delete and add per rtrule, in file order |
| `RoutingRebuild.PerformSame` | src/shorewall_nft/script.py:564-568 | no command lets an unmanaged rule or table influence a managed one |
| `RoutingRebuild.ClearErases` | src/shorewall_nft/script.py:119-145 | the clear half empties every managed pref and table, given at most one rule in each single-delete slot |
| `RoutingRebuild.BuildAdds` | src/shorewall_nft/script.py:147-301 | the build half adds each single-delete rule at most once |
| `RoutingRebuild.RebuildTidy` | src/shorewall_nft/script.py:119-301 | so each rebuild keeps every single-delete slot at one rule at most |
| `RoutingRebuild.Determined` | src/shorewall_nft/script.py:564-568 | after a rebuild the managed rules and tables depend on the configuration, the usable providers and the addresses alone |
| `RoutingRebuild.NoResidue` | src/shorewall_nft/script.py:564-590 | no history of rebuilds, stops and outside changes leaves a residue for the next rebuild |
| `RoutingRebuild.DisableThenEnable` | src/shorewall_nft/script.py:556-562 | a rebuild is idempotent, and disabling then enabling restores it |
| `RoutingEgress.ByBalance` | src/shorewall_nft/script.py:257-299 | an unclaimed packet leaves by table 250 over exactly the usable balanced hops and weights, if any |
| `RoutingEgress.ByWeighted` | src/shorewall_nft/script.py:262-299 | else by table 253 over exactly the usable weighted fallbacks and weights, if any |
| `RoutingEgress.ByFallback` | src/shorewall_nft/script.py:262-276 | else by table 253 over the usable fallback with the lowest provider number |
| `RoutingEgress.LeastExists` | src/shorewall_nft/script.py:262-276 | whenever a fallback is usable, one of the two is there |
| `RoutingEgress.ByMain` | src/shorewall_nft/script.py:277-289 | else the rebuild leaves the default routes of main as they were, and the packet takes the one of lowest metric |
| `RoutingEgress.NotPutBack` | src/shorewall_nft/script.py:284-289 | over any run of rebuilds main keeps its default routes exactly when it had none or nothing was usable in any of them; otherwise none is left |
| `RoutingEgress.Blackholed` | src/shorewall_nft/script.py:257-299 | with fallbacks configured, once anything was usable and then nothing is, an unclaimed packet has no route at all |
| `RoutingEgress.HopsRun` | src/shorewall_nft/script.py:257-261 | the shell variables end up holding the usable hops in file order |
| `RoutingClaims.ByMark` | src/shorewall_nft/script.py:155-209 | after a rebuild a packet with the mark of a usable provider leaves by that provider's table and gateway, unless a rule tried before claims it |
| `RoutingClaims.BySource` | src/shorewall_nft/script.py:199-207 | a packet from an address of a usable provider's interface does too, unless the provider is loose |
| `RoutingClaims.ByRtRule` | src/shorewall_nft/script.py:214-236 | a packet that meets the columns of an rtrule looks up its table, unless a rule tried before claims it, a later rtrule of the priority evicted it, or the table has no route |
| `RoutingClaims.ByRtRuleProvider` | src/shorewall_nft/script.py:212-236 | and leaves by the provider it names, by number or else by name, when that is usable |
| `RoutingClaims.OwnTableIs` | src/shorewall_nft/script.py:188-198 | a usable provider's table holds its gateway on the link, its default, and the routes file lines over them, nothing else |
| `RoutingClaims.GatewayLinked` | src/shorewall_nft/script.py:191 | the gateway of a usable provider is reached from main on its own link |
| `RoutingClaims.StaticRoute` | src/shorewall_nft/script.py:302-312 | each routes file line is in its table after a rebuild, the last of those for a destination |
| `RoutingClaims.StaticCleared` | src/shorewall_nft/script.py:302-314 | the next clear takes each of them out, whatever table it is in |
| `RoutingClaims.StopRestores` | src/shorewall_nft/script.py:295-317 | a stop leaves nothing managed, puts main's stock rule back and each default saved before the start |
| `RoutingClaims.MainRuleMoves` | src/shorewall_nft/script.py:281-299 | main's stock rule stays until a provider default stands in for main's, is then taken out once, and a stop adds one |
| `Netmap.Nesting` | src/shorewall_nft/parsers.py:1349 | of two prefixes with a common address the longer lies inside the shorter (section 3.1 of RFC 4632) |
| `Netmap.IfaceOverlapExact` | src/shorewall_nft/parsers.py:1358-1363 | two interface patterns overlap exactly when some interface name matches both |
| `Netmap.OverlapExact` | src/shorewall_nft/parsers.py:1346-1355 | entries overlap exactly when they share an address and no single exclusion holds every shared one |
| `Netmap.ValidateConflicts` | src/shorewall_nft/parsers.py:1357-1390 | the pairwise loops report the first duplicate or conflicting pair, or accept exactly when there is none |
| `Netmap.NoAmbiguity` | src/shorewall_nft/parsers.py:1346-1390 | two entries of an accepted file with the same kind and qualifiers that both take an address translate it alike |
| `Netmap.OrderIrrelevant` | src/shorewall_nft/parsers.py:1365-1390 | so first-match over any permutation of the file gives the same translation |
| `Netmap.Bijection` | src/shorewall_nft/parsers.py:1408-1413 | a translation keeps the host part, lands in NET2, and the swapped entry undoes it |
| `Netmap.Onto` | src/shorewall_nft/parsers.py:1408-1413 | every address of NET2 is the translation of exactly one address of NET1 |
| `Netmap.RefusedExactly` | src/shorewall_nft/parsers.py:1346-1375 | a sound matching pair that translates some packet two ways is always refused; a refused pair translates none two ways exactly when both move addresses equally far or their exclusions jointly hold every common address |
| `Netmap.TearsExact` | src/shorewall_nft/parsers.py:1346-1355 | two entries translate some packet two ways exactly when their interfaces overlap, an unexcluded address is common, and they move it differently far |
| `Netmap.OneExclusionExact` | src/shorewall_nft/parsers.py:1346-1355 | with at most one exclusion a matching pair is refused exactly when NET2 differs and both take some packet, and of the refused pairs those with different shifts are the ones that translate a packet two ways |
| `Netmap.JointExclusionsRefused` | src/shorewall_nft/parsers.py:1351-1354 | two exclusions that jointly leave nothing shared are refused all the same |
| `Netmap.EqualShiftRefused` | src/shorewall_nft/parsers.py:1372-1374 | a prefix nested in another and mapped along with it is refused all the same |
| `Netmap.OrderExactly` | src/shorewall_nft/parsers.py:1357-1390 | for an accepted file and any packet, whatever qualifiers it meets, the order of the entries is irrelevant exactly when no two entries of the kind with different qualifiers both take the packet and translate it differently |
| `Netmap.FileOrderExactly` | src/shorewall_nft/parsers.py:1357-1390 | for an accepted file and any packets there can be, the order is irrelevant to all of them exactly when no two entries of a kind with different, jointly met qualifiers overlap on an interface and an unexcluded address and move it differently far |
| `Netmap.ParsedSound` | src/shorewall_nft/parsers.py:1404-1415 | an entry that parses has aligned, non-zero, equal-length prefixes |
| `NetmapLines.LineRefused` | src/shorewall_nft/parsers.py:1393-1424 | a line is refused with the error of the first check it fails, in column order, and accepted when it fails none |
| `NetmapLines.EntryTakes` | src/shorewall_nft/parsers.py:1203-1224 | the entry of an accepted line takes an address exactly when its interface is the one denoted, the address agrees with NET1 and with none of its exclusions |
| `NetmapLines.EntryMoves` | src/shorewall_nft/parsers.py:1408-1413 | it moves the address into NET2 and leaves its host bits alone |
| `NetmapLines.EntrySays` | src/shorewall_nft/parsers.py:1214-1240 | its kind is the type before the colon, its qualifiers are its own columns, and its exclusions lie inside what they qualify |
| `NetmapLines.FileRead` | src/shorewall_nft/parsers.py:1393-1424 | the file reads as all of its lines in order, or as the error of the first bad one |
| `NetmapLines.AcceptedExactly` | src/shorewall_nft/parsers.py:1357-1390 | it has no duplicate or conflict exactly when no entry repeats an earlier one, however its type is written, and none contradicts one |
| `NetmapLines.SupportedTypes` | src/shorewall_nft/parsers.py:1427-1433 | the types left are SNAT, DNAT, SNAT:T and DNAT:P |
| `Netmap.ParseNetmap` | src/shorewall_nft/parsers.py:1393-1437 | lines, then conflicts, then unsupported types: the first error in that order, or the entries |
| `Reader.ReadFile` | src/shorewall_nft/reader.py:156-281 | the loop with its frames changed in place is the stack machine |
| `Reader.Conditional` | src/shorewall_nft/reader.py:190-217 | each conditional directive changes the top frame, or the stack, as the machine does, or is refused |
| `Reader.MachineIsTree` | src/shorewall_nft/reader.py:188-217 | on a well-nested file the machine yields what the recursive block evaluation selects |
| `Reader.ReadsExactly` | src/shorewall_nft/reader.py:188-281 | a file is well nested exactly when it is a block tree; it then reads as the tree selects, otherwise it is refused |
| `Reader.IllNestedFails` | src/shorewall_nft/reader.py:196-217 | an unmatched ?ELSIF, ?ELSE or ?ENDIF, or an unclosed ?IF, is always an error |
| `Reader.RunDead` | src/shorewall_nft/reader.py:188-257 | nothing inside a branch not taken has any effect |
| `Reader.RunSkipped` | src/shorewall_nft/reader.py:196-213 | once a branch was taken no later branch of the conditional is live |
| `Reader.StraightErrors` | src/shorewall_nft/reader.py:238-257 | the only other errors are a bad ?FORMAT and an unknown directive on a live line |
| `Reader.StraightExactly` | src/shorewall_nft/reader.py:238-257 | selected lines are accepted exactly when every ?FORMAT is a number from one to the last format and no directive is unknown; else the first that is not is reported |
| `Reader.NestingErrors` | src/shorewall_nft/reader.py:196-281 | a branch or end that opens nothing, and an ?IF that nothing closes, are each reported as such, at their line |
| `Reader.CarriesLast` | src/shorewall_nft/reader.py:238-251 | each selected line comes out once, in order, with the section and format of the last live directive |
| `Reader.JoinLines` | src/shorewall_nft/reader.py:168-177 | the loop that joins continuation lines keeps the held text and its line number as the recursive join does |
| `Reader.JoinStarts` | src/shorewall_nft/reader.py:168-177 | each logical line carries the number of the first of its physical lines that is not a bare backslash |
| `Reader.JoinConserves` | src/shorewall_nft/reader.py:168-177 | joining keeps every character but the marks and what is still held back at the end |
| `Reader.DroppedExactly` | src/shorewall_nft/reader.py:168-177 | for every file, text is lost exactly when it ends in continued lines that are not all bare backslashes |
| `Chunk.Chunker.Add` | src/shorewall_nft/chunk.py:33-37 | a statement joins the open chunk, or opens a new one when it would not fit |
| `Chunk.Chunker.Flush` | src/shorewall_nft/chunk.py:39-43 | the open chunk is closed; an empty one is not |
| `Chunk.ChunkTextLength` | src/shorewall_nft/chunk.py:33-41 | the tracked size is the length of the chunk text |
| `Chunk.ChunksBounded` | src/shorewall_nft/chunk.py:27-43 | chunks concatenate to the statements in order, and one is over budget exactly when it is a single oversized statement |
| `Chunk.ChunksWithin` | src/shorewall_nft/chunk.py:27-43 | every chunk is within CHUNK_BYTES whenever each statement fits |
| `Chunk.ChunksGreedy` | src/shorewall_nft/chunk.py:33-37 | a chunk is closed only when the next statement does not fit |
| `Chunk.SizeIsBytesExactly` | src/shorewall_nft/chunk.py:34 | the size counts characters, which are bytes exactly in ASCII text |
| `Chunk.ElementStatements` | src/shorewall_nft/chunk.py:65-82 | the loop gives the chunker one statement per batch of elements |
| `Chunk.ElementsBounded` | src/shorewall_nft/chunk.py:65-82 | element batches keep order and stay under half the budget plus header and one element |
| `Chunk.ElementsFull` | src/shorewall_nft/chunk.py:65-82 | a batch is closed only once it reaches half the budget |
| `Chunk.AddBatches` | src/shorewall_nft/geoip.py:23-39 | the geoip loop yields one statement per batch |
| `Chunk.CountryBounded` | src/shorewall_nft/geoip.py:23-39 | geoip batches keep order and meet half the budget unless a batch is a single element |
| `Chunk.CountryBatchesGreedy` | src/shorewall_nft/geoip.py:23-39 | a geoip batch is closed only when the next network does not fit |
| `Split.RowsReadBack` | src/shorewall_nft/chunk.py:121-124 | a printed elements row reads back as its items |
| `Split.SplitLines` | src/shorewall_nft/chunk.py:85-165 | the scanning loop computes the specified skeleton and chunks |
| `SplitRead.ChunkLines` | src/shorewall_nft/chunk.py:40 | breaking the text of a chunk at its newlines gives back its statements |
| `SplitRead.TextReads` | src/shorewall_nft/chunk.py:77-82 | a written add rule or add element statement reads back as the chain and rule, or the set and elements, it was made from |
| `SplitRead.ChunksRead` | src/shorewall_nft/chunk.py:85-165 | reading the texts of all chunks in order gives the element statements and then the rule statements |
| `SplitRead.NodesRead` | src/shorewall_nft/chunk.py:85-165 | printed nested blocks read back as the same blocks |
| `SplitLossless.RowsHold` | src/shorewall_nft/emit.py:976-983 | elements printed eight to a row read back as the elements, in order |
| `SplitLossless.ScanTable` | src/shorewall_nft/chunk.py:100-158 | scanning a printed table collects its skeleton, the batches of the elements its rows hold, and its rules, item by item |
| `SplitLossless.TableReads` | src/shorewall_nft/chunk.py:85-99 | reading a printed table gives each chain with its headers and rules and each set with its declaration and elements |
| `SplitLossless.Lossless` | src/shorewall_nft/chunk.py:85-165 | the skeleton text reads as the table without rules and elements, and the statements read from the chunk texts, applied to it, give every chain, set and declaration of the single transaction |
| `SplitLossless.AddedExactly` | src/shorewall_nft/chunk.py:65-82 | the chunk texts add to an interval set its collapsed elements and to any other set its elements verbatim, and to a chain its rules |
| `SplitLossless.NoiseDropped` | src/shorewall_nft/chunk.py:102-105 | indentation, blank lines and comments make no difference |
| `SplitLossless.HeadScanned` | src/shorewall_nft/chunk.py:131-145 | a block in the table headed chain or map holds rules for its name, any other block is an object of its name |
| `SplitLossless.MentionsExactly` | src/shorewall_nft/chunk.py:146-152 | a set is an interval set exactly when the word stands somewhere in its declaration |
| `SplitLossless.FailsClosed` | src/shorewall_nft/chunk.py:8-14 | with what is read from the skeleton text alone the drop-policy hooks accept nothing; with what is read from the chunk texts they are as in the table |

## Left out

- Wildcard interfaces in dispatch, ipsec zones, rate limits, connlimit, events, AutoBL, TIME, INLINE text, logging and counters: kernel-side state or opaque text.
- The hook lines for dhcp, tcpflags, smurfs, maclist, blacklist and Docker are opaque filters: a test of the packet and a verdict, in a given order. The log line after the dispatch decides nothing and is left out.
- The zone:interface address form and interior exclusions of an address column; a column is a list, negated as a whole or not.
- Macro expansion, token validators, address syntax and capability lookup: small local checks.
- Default actions are lists of components, not text; their aliases and parse errors are not modelled, and two texts with the same components count as one action.
- The order in which the shared chains are emitted is left open; the source sorts them by name.
- EmitterClass.Emitter.Render: the column error stands for every address-column error and carries no text, because the messages are presentation.
- Lsm.Monitor.Check: latencies are reals and the compiled text of a latency is any word without spaces; decimal rounding in the status line is not modelled.
- Failover steps are one verb or one monitor callback; races finer than that, script failures and missing status directories are not modelled.
- Gateway detection and its extension script, the main table's link routes, sysctls, address scopes and the save of the pristine default before the first start.
- Routing.Generate: yields structured commands, not shell text; a command that fails has no effect and does not stop the script.
- Netmap.ParseNetmap: works on columns already split into prefixes, and takes protocol and port columns as canonical text; their validators are local checks.
- INCLUDE, ?INCLUDE_GLOB, SHELL lines, variable expansion, comment stripping and the evaluation of ?IF expressions: a condition is a boolean input.
- Split.SplitLines: names the chain and set by single-space word splitting, which is how the emitter prints them; `map` blocks, which it never prints as blocks, are scanned as the source does but are outside SplitLossless.Lossless.
- Verdicts partway through loading the chunks, the temporary files and the loader script.
- `ipaddress.collapse_addresses`: a function that keeps the union of the addresses.
- The monitor display, listings, wizard, packaging, traffic control, proxy ARP, NAT, mangle and accounting chains, and the safe-apply timer: presentation, plumbing or chains of one loop each.
