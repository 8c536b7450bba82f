/** The configuration, and what it means: which verdict a packet gets when the
    zones, sections and policies are read directly. */
module Zones {
  import opened Wrappers
  import opened Columns
  import opened Nft

  datatype Action = ActAccept | ActDrop | ActReject | ActQueue | ActAllowIcmps

  datatype Section = SecAll | SecEstablished | SecRelated | SecInvalid | SecUntracked | SecNew

  /** One rule after macro expansion; `extra` are its other matches. */
  datatype FwRule = FwRule(
    source: string, dest: string, section: Section,
    saddr: Option<Column>, daddr: Option<Column>, extra: seq<nat>, action: Action)

  datatype PolicyAction = PolAccept | PolDrop | PolReject | PolQueue | PolContinue | PolNone

  datatype Policy = Policy(source: string, dest: string, action: PolicyAction, noDefault: bool)

  datatype Component = Broadcasts(v: Verdict) | Multicasts(v: Verdict) | NotSyns | Invalids | Icmps

  datatype InvalidDisposition = InvContinue | InvDrop | InvReject | InvAuditDrop | InvAuditReject

  datatype Interface = Interface(zone: Option<string>, physical: string, routeback: bool)

  datatype Host = Host(zone: string, iface: string, nets: string)

  datatype Hook = Input | Output | Forward

  /** A rule that a hook runs before its dispatch: DHCP, an interface filter,
      MAC verification, the blacklist, Docker coexistence. */
  datatype Filter = Filter(hook: Hook, id: nat, verdict: Verdict)

  datatype Config = Config(
    v6: bool, concatMaps: bool, fw: string, zones: seq<string>, filters: seq<Filter>,
    interfaces: seq<Interface>, hosts: seq<Host>,
    policies: seq<Policy>, rules: seq<FwRule>, invalid: InvalidDisposition,
    dropDefault: Option<seq<Component>>, rejectDefault: Option<seq<Component>>,
    acceptDefault: Option<seq<Component>>)

  // ------------------------------------------------------------ the claims

  /** A zone's claim on traffic: an address list on an interface, or all of it. */
  datatype Claim = Claim(zone: string, iface: string, nets: Option<string>)

  function HostClaims(hosts: seq<Host>, z: string): seq<Claim> {
    if hosts == [] then []
    else HostClaims(hosts[..|hosts| - 1], z)
         + var h := hosts[|hosts| - 1]; if h.zone == z then [Claim(z, h.iface, Some(h.nets))] else []
  }

  function WholeClaims(ifaces: seq<Interface>, z: string): seq<Claim> {
    if ifaces == [] then []
    else WholeClaims(ifaces[..|ifaces| - 1], z)
         + var i := ifaces[|ifaces| - 1]; if i.zone == Some(z) then [Claim(z, i.physical, None)] else []
  }

  /** Hosts entries first, then whole interfaces. */
  function Sources(cfg: Config, z: string): seq<Claim> {
    HostClaims(cfg.hosts, z) + WholeClaims(cfg.interfaces, z)
  }

  function NetZonesOf(cfg: Config, zones: seq<string>): seq<string> {
    if zones == [] then []
    else NetZonesOf(cfg, zones[..|zones| - 1])
         + var z := zones[|zones| - 1]; if z != cfg.fw && Sources(cfg, z) != [] then [z] else []
  }

  /** The zones other than the firewall that claim anything, in file order. */
  function NetZones(cfg: Config): seq<string> {
    NetZonesOf(cfg, cfg.zones)
  }

  function ClaimsOf(cfg: Config, zones: seq<string>): seq<Claim> {
    if zones == [] then [] else ClaimsOf(cfg, zones[..|zones| - 1]) + Sources(cfg, zones[|zones| - 1])
  }

  predicate RoutebackIn(ifaces: seq<Interface>, z: string) {
    exists i :: 0 <= i < |ifaces| && ifaces[i].zone == Some(z) && ifaces[i].routeback
  }

  /** Traffic may stay within the zone: an option says so, or it has two interfaces. */
  predicate Routeback(cfg: Config, z: string) {
    RoutebackIn(cfg.interfaces, z) || |WholeClaims(cfg.interfaces, z)| > 1
  }

  /** The routeback option of a zone's first interface of that name. */
  function HairpinOption(ifaces: seq<Interface>, z: string, physical: string): bool {
    if ifaces == [] then false
    else if ifaces[0].zone == Some(z) && ifaces[0].physical == physical then ifaces[0].routeback
    else HairpinOption(ifaces[1..], z, physical)
  }

  /** Whether the pair of claims is dispatched at all. */
  predicate Dispatched(cfg: Config, a: Claim, b: Claim) {
    && (a.zone != b.zone || Routeback(cfg, a.zone))
    && (a.iface == b.iface && a.zone == b.zone && a.nets.None? && b.nets.None? ==>
          HairpinOption(cfg.interfaces, a.zone, a.iface))
  }

  // -------------------------------------------------------- the pair verdict

  function OrElse(a: Option<Verdict>, b: Option<Verdict>): Option<Verdict> {
    if a.Some? then a else b
  }

  predicate MaybeColumn(c: Option<Column>, holds: set<Item>) {
    c.Some? ==> ColumnSat(c.value, holds)
  }

  predicate RuleMatches(r: FwRule, p: Packet) {
    && MaybeColumn(r.saddr, p.srcItems) && MaybeColumn(r.daddr, p.dstItems)
    && forall i :: 0 <= i < |r.extra| ==> r.extra[i] in p.other
  }

  function ActionVerdict(a: Action, p: Packet): Option<Verdict> {
    match a
    case ActAccept => Some(Accept)
    case ActDrop => Some(Drop)
    case ActReject => Some(Reject)
    case ActQueue => Some(Queue)
    case ActAllowIcmps => if p.neededIcmp then Some(Accept) else None
  }

  predicate Concerns(r: FwRule, z1: string, z2: string) {
    (r.source == z1 || r.source == "all") && (r.dest == z2 || r.dest == "all")
  }

  /** The first rule of the section, in file order, that decides the packet. */
  function FirstIn(rules: seq<FwRule>, z1: string, z2: string, sec: Section, p: Packet): Option<Verdict> {
    if rules == [] then None
    else
      var r := rules[|rules| - 1];
      OrElse(FirstIn(rules[..|rules| - 1], z1, z2, sec, p),
             if r.section == sec && Concerns(r, z1, z2) && RuleMatches(r, p) then ActionVerdict(r.action, p) else None)
  }

  predicate CatchAll(s: string) {
    s == "all" || s == "any" || s == "all+" || s == "any+"
  }

  predicate PolicyApplies(pol: Policy, z1: string, z2: string) {
    && (pol.source == z1 || CatchAll(pol.source))
    && (pol.dest == z2 || CatchAll(pol.dest))
    && (z1 == z2 ==>
          !(pol.source == "all" || pol.source == "any" || pol.dest == "all" || pol.dest == "any")
          || pol.source == "all+" || pol.source == "any+" || pol.dest == "all+" || pol.dest == "any+")
  }

  function FirstPolicy(pols: seq<Policy>, z1: string, z2: string): Option<Policy> {
    if pols == [] then None
    else if PolicyApplies(pols[0], z1, z2) then Some(pols[0])
    else FirstPolicy(pols[1..], z1, z2)
  }

  /** First match in file order; traffic within a zone is accepted by default. */
  function PolicyFor(cfg: Config, z1: string, z2: string): Option<Policy> {
    var p := FirstPolicy(cfg.policies, z1, z2);
    if p.None? && z1 == z2 then Some(Policy(z1, z2, PolAccept, false)) else p
  }

  function DefaultFor(cfg: Config, a: PolicyAction): Option<seq<Component>> {
    match a
    case PolDrop => cfg.dropDefault
    case PolReject => cfg.rejectDefault
    case PolAccept => cfg.acceptDefault
    case _ => None
  }

  function ComponentVerdict(c: Component, p: Packet): Option<Verdict> {
    match c
    case Broadcasts(v) => if p.daddrType == Broadcast || p.daddrType == Anycast then Some(v) else None
    case Multicasts(v) => if p.daddrType == Multicast then Some(v) else None
    case NotSyns => if p.notSyn then Some(Drop) else None
    case Invalids => if p.ct == CtInvalid then Some(Drop) else None
    case Icmps => if p.icmp6 && p.neededIcmp then Some(Accept) else None
  }

  function DefaultVerdict(cs: seq<Component>, p: Packet): Option<Verdict> {
    if cs == [] then None
    else OrElse(DefaultVerdict(cs[..|cs| - 1], p), ComponentVerdict(cs[|cs| - 1], p))
  }

  function PolicyVerdict(a: PolicyAction): Option<Verdict> {
    match a
    case PolAccept => Some(Accept)
    case PolDrop => Some(Drop)
    case PolReject => Some(Reject)
    case PolQueue => Some(Queue)
    case PolContinue => None
    case PolNone => None
  }

  /** The default action of the disposition, then the disposition. */
  function Disposition(cfg: Config, pol: Policy, p: Packet): Option<Verdict> {
    var d := if pol.noDefault then None else DefaultFor(cfg, pol.action);
    OrElse(if d.Some? then DefaultVerdict(d.value, p) else None, PolicyVerdict(pol.action))
  }

  function InvalidVerdict(d: InvalidDisposition): Option<Verdict> {
    match d
    case InvContinue => None
    case InvDrop => Some(Drop)
    case InvReject => Some(Reject)
    case InvAuditDrop => Some(Drop)
    case InvAuditReject => Some(Reject)
  }

  /** NEW rules, then the policy. */
  function NewMeaning(cfg: Config, z1: string, z2: string, pol: Policy, p: Packet): Option<Verdict> {
    OrElse(FirstIn(cfg.rules, z1, z2, SecNew, p), Disposition(cfg, pol, p))
  }

  /** The section of the packet's own conntrack state, with that state's
      implicit disposition. */
  function StateMeaning(cfg: Config, z1: string, z2: string, pol: Policy, p: Packet): Option<Verdict> {
    match p.ct
    case CtEstablished => OrElse(FirstIn(cfg.rules, z1, z2, SecEstablished, p), Some(Accept))
    case CtRelated => OrElse(FirstIn(cfg.rules, z1, z2, SecRelated, p), Some(Accept))
    case CtInvalid =>
      OrElse(FirstIn(cfg.rules, z1, z2, SecInvalid, p),
             OrElse(InvalidVerdict(cfg.invalid), NewMeaning(cfg, z1, z2, pol, p)))
    case CtUntracked => OrElse(FirstIn(cfg.rules, z1, z2, SecUntracked, p), NewMeaning(cfg, z1, z2, pol, p))
    case CtNew => NewMeaning(cfg, z1, z2, pol, p)
  }

  /** IPv6 cannot work without some ICMP. */
  function IcmpMeaning(cfg: Config, p: Packet): Option<Verdict> {
    if cfg.v6 && p.icmp6 && p.neededIcmp then Some(Accept) else None
  }

  /** What the configuration says about traffic from z1 to z2; None hands the
      packet on, as CONTINUE and NONE policies do. */
  function PairMeaning(cfg: Config, z1: string, z2: string, p: Packet): Option<Verdict> {
    var pol := PolicyFor(cfg, z1, z2);
    if pol.None? then None
    else
      OrElse(IcmpMeaning(cfg, p),
             OrElse(FirstIn(cfg.rules, z1, z2, SecAll, p), StateMeaning(cfg, z1, z2, pol.value, p)))
  }

  // -------------------------------------------------------- the hook verdict

  predicate HoldsFrom(c: Claim, p: Packet) {
    c.iface == p.iif && (c.nets.Some? ==> c.nets.value in p.srcNets)
  }

  predicate HoldsTo(c: Claim, p: Packet) {
    c.iface == p.oif && (c.nets.Some? ==> c.nets.value in p.dstNets)
  }

  predicate Holds(hook: Hook, c: Claim, p: Packet) {
    if hook == Input then HoldsFrom(c, p) else HoldsTo(c, p)
  }

  function ZoneMeaning(cfg: Config, hook: Hook, z: string, p: Packet): Option<Verdict> {
    if hook == Input then PairMeaning(cfg, z, cfg.fw, p) else PairMeaning(cfg, cfg.fw, z, p)
  }

  /** Offer the packet to every claim that holds, in order, until one decides. */
  function Offer(cfg: Config, hook: Hook, cs: seq<Claim>, p: Packet): Option<Verdict> {
    if cs == [] then None
    else OrElse(Offer(cfg, hook, cs[..|cs| - 1], p),
                var c := cs[|cs| - 1];
                if Holds(hook, c, p) then ZoneMeaning(cfg, hook, c.zone, p) else None)
  }

  function Narrow(cs: seq<Claim>, narrow: bool): seq<Claim> {
    if cs == [] then []
    else Narrow(cs[..|cs| - 1], narrow)
         + if cs[|cs| - 1].nets.Some? == narrow then [cs[|cs| - 1]] else []
  }

  function PairsWith(cfg: Config, a: Claim, bs: seq<Claim>): seq<(Claim, Claim)> {
    if bs == [] then []
    else PairsWith(cfg, a, bs[..|bs| - 1])
         + if Dispatched(cfg, a, bs[|bs| - 1]) then [(a, bs[|bs| - 1])] else []
  }

  function PairsAll(cfg: Config, xs: seq<Claim>, bs: seq<Claim>): seq<(Claim, Claim)> {
    if xs == [] then []
    else PairsAll(cfg, xs[..|xs| - 1], bs) + PairsWith(cfg, xs[|xs| - 1], bs)
  }

  function PairsZones(cfg: Config, z1: string, zones: seq<string>): seq<(Claim, Claim)> {
    if zones == [] then []
    else PairsZones(cfg, z1, zones[..|zones| - 1])
         + PairsAll(cfg, Sources(cfg, z1), Sources(cfg, zones[|zones| - 1]))
  }

  /** All dispatched pairs of claims: by source zone, destination zone, source
      claim and destination claim. */
  function PairClaims(cfg: Config, zones: seq<string>): seq<(Claim, Claim)> {
    if zones == [] then []
    else PairClaims(cfg, zones[..|zones| - 1]) + PairsZones(cfg, zones[|zones| - 1], NetZones(cfg))
  }

  /** How many sides are whole interfaces: fewer is more specific. */
  function Rank(c: (Claim, Claim)): nat {
    (if c.0.nets.Some? then 0 else 1) + (if c.1.nets.Some? then 0 else 1)
  }

  function Ranked(cs: seq<(Claim, Claim)>, r: nat): seq<(Claim, Claim)> {
    if cs == [] then []
    else Ranked(cs[..|cs| - 1], r) + if Rank(cs[|cs| - 1]) == r then [cs[|cs| - 1]] else []
  }

  function OfferPairs(cfg: Config, cs: seq<(Claim, Claim)>, p: Packet): Option<Verdict> {
    if cs == [] then None
    else OrElse(OfferPairs(cfg, cs[..|cs| - 1], p),
                var c := cs[|cs| - 1];
                if HoldsFrom(c.0, p) && HoldsTo(c.1, p) then PairMeaning(cfg, c.0.zone, c.1.zone, p) else None)
  }

  function FilterMeaning(fs: seq<Filter>, hook: Hook, p: Packet): Option<Verdict> {
    if fs == [] then None
    else
      var f := fs[|fs| - 1];
      OrElse(FilterMeaning(fs[..|fs| - 1], hook, p), if f.hook == hook
          && f.id in p.other then Some(f.verdict) else None)
  }

  /** Before any zone is asked: loopback, needed ICMP, then the hook's filters. */
  function OpeningMeaning(cfg: Config, hook: Hook, p: Packet): Option<Verdict> {
    OrElse(if (hook == Input && p.iif == "lo") || (hook == Output && p.oif == "lo") then Some(Accept) else None,
           OrElse(IcmpMeaning(cfg, p), FilterMeaning(cfg.filters, hook, p)))
  }

  function SideMeaning(cfg: Config, hook: Hook, p: Packet): Option<Verdict> {
    var cs := ClaimsOf(cfg, NetZones(cfg));
    OrElse(Offer(cfg, hook, Narrow(cs, true), p), Offer(cfg, hook, Narrow(cs, false), p))
  }

  function ForwardOffer(cfg: Config, cs: seq<(Claim, Claim)>, p: Packet): Option<Verdict> {
    OrElse(OfferPairs(cfg, Ranked(cs, 0), p),
           OrElse(OfferPairs(cfg, Ranked(cs, 1), p), OfferPairs(cfg, Ranked(cs, 2), p)))
  }

  /** What the zones say: address-scoped claims before whole interfaces, zone
      order within each. */
  function ZonesMeaning(cfg: Config, hook: Hook, p: Packet): Option<Verdict> {
    if hook == Forward then ForwardOffer(cfg, PairClaims(cfg, NetZones(cfg)), p) else SideMeaning(cfg, hook, p)
  }

  /** The verdict of a hook, drop when nothing decides. */
  function Meaning(cfg: Config, hook: Hook, p: Packet): Verdict {
    var v := OrElse(OpeningMeaning(cfg, hook, p), ZonesMeaning(cfg, hook, p));
    if v.Some? then v.value else Drop
  }
}
