/** The zones' say on a packet, read off its interfaces: which zone owns each,
    and whether the packet may go between them. */
module EmitReading {
  import opened Wrappers
  import opened Nft
  import opened Zones
  import opened Emit
  import opened EmitTable
  import opened EmitLayers
  import opened EmitDispatch

  /** The zone an interface belongs to. */
  function Owner(ifaces: seq<Interface>, name: string): Option<string> {
    if ifaces == [] then None
    else if ifaces[0].physical == name && ifaces[0].zone.Some? then ifaces[0].zone
    else Owner(ifaces[1..], name)
  }

  /** Its routeback option. */
  function Hairpin(ifaces: seq<Interface>, name: string): bool {
    if ifaces == [] then false
    else if ifaces[0].physical == name && ifaces[0].zone.Some? then ifaces[0].routeback
    else Hairpin(ifaces[1..], name)
  }

  predicate Net(cfg: Config, z: Option<string>) {
    z.Some? && z.value in cfg.zones && z.value != cfg.fw
  }

  /** Between two owned interfaces the pair of owners decides; back out of the
      same interface only with routeback. */
  function BetweenOwners(cfg: Config, p: Packet): Option<Verdict> {
    var a, b := Owner(cfg.interfaces, p.iif), Owner(cfg.interfaces, p.oif);
    if Net(cfg, a) && Net(cfg, b) && (p.iif != p.oif || Hairpin(cfg.interfaces, p.iif))
    then PairMeaning(cfg, a.value, b.value, p) else None
  }

  // ------------------------------------------------------ claims and owners

  function Whole(z: string, name: string): Claim {
    Claim(z, name, None)
  }

  lemma {:induction false} OwnerOwned(ifaces: seq<Interface>, name: string)
    ensures Owner(ifaces, name).Some? ==> Owned(ifaces, Whole(Owner(ifaces, name).value, name))
  {
    if ifaces != [] {
      var rest := ifaces[1..];
      OwnerOwned(rest, name);
      if ifaces[0].physical == name && ifaces[0].zone.Some? {
        assert ifaces[0].zone == Some(Owner(ifaces, name).value);
      } else if Owner(rest, name).Some? {
        var i :| 0 <= i < |rest| && rest[i].zone == Owner(rest, name) && rest[i].physical == name;
        assert ifaces[i + 1].zone == Owner(ifaces, name);
      }
    }
  }

  lemma {:induction false} OwnedOwner(ifaces: seq<Interface>, c: Claim)
    requires Owned(ifaces, c)
    requires forall i, j :: 0 <= i < j < |ifaces| && ifaces[i].zone.Some? && ifaces[j].zone.Some?
               ==> ifaces[i].physical != ifaces[j].physical
    ensures Owner(ifaces, c.iface) == Some(c.zone)
    ensures HairpinOption(ifaces, c.zone, c.iface) == Hairpin(ifaces, c.iface)
    ensures Hairpin(ifaces, c.iface) ==> RoutebackIn(ifaces, c.zone)
  {
    var i :| 0 <= i < |ifaces| && ifaces[i].zone == Some(c.zone) && ifaces[i].physical == c.iface;
    if i > 0 {
      var rest := ifaces[1..];
      assert rest[i - 1] == ifaces[i];
      OwnedOwner(rest, c);
      if RoutebackIn(rest, c.zone) {
        var k :| 0 <= k < |rest| && rest[k].zone == Some(c.zone) && rest[k].routeback;
        assert ifaces[k + 1].routeback;
      }
    }
  }

  lemma {:induction false} WholeClaimsHas(ifaces: seq<Interface>, c: Claim)
    requires c.nets.None? && Owned(ifaces, c)
    ensures c in WholeClaims(ifaces, c.zone)
  {
    var i :| 0 <= i < |ifaces| && ifaces[i].zone == Some(c.zone) && ifaces[i].physical == c.iface;
    var n := |ifaces| - 1;
    if i < n {
      assert ifaces[..n][i] == ifaces[i];
      WholeClaimsHas(ifaces[..n], c);
    }
  }

  lemma TwoMembers<T>(s: seq<T>, a: T, b: T)
    requires a in s && b in s && a != b
    ensures |s| > 1
  {
  }

  lemma {:induction false} PairsWithHas(cfg: Config, a: Claim, bs: seq<Claim>, b: Claim)
    ensures (a, b) in PairsWith(cfg, a, bs) <==> b in bs && Dispatched(cfg, a, b)
    ensures forall c :: c in PairsWith(cfg, a, bs) ==> c.0 == a && c.1 in bs
  {
    hide Dispatched;
    if bs != [] {
      var n := |bs| - 1;
      assert bs == bs[..n] + [bs[n]];
      PairsWithHas(cfg, a, bs[..n], b);
    }
  }

  lemma {:induction false} PairsAllHas(cfg: Config, xs: seq<Claim>, bs: seq<Claim>, a: Claim, b: Claim)
    ensures (a, b) in PairsAll(cfg, xs, bs) <==> a in xs && b in bs && Dispatched(cfg, a, b)
    ensures forall c :: c in PairsAll(cfg, xs, bs) ==> c.0 in xs && c.1 in bs
  {
    hide Dispatched;
    if xs != [] {
      var n := |xs| - 1;
      assert xs == xs[..n] + [xs[n]];
      PairsAllHas(cfg, xs[..n], bs, a, b);
      PairsWithHas(cfg, xs[n], bs, b);
    }
  }

  lemma {:induction false} PairsZonesHas(cfg: Config, z1: string, zones: seq<string>, a: Claim, b: Claim)
    ensures a in Sources(cfg, z1) && b.zone in zones && b in Sources(cfg, b.zone) && Dispatched(cfg, a, b)
            ==> (a, b) in PairsZones(cfg, z1, zones)
  {
    hide Dispatched, Sources;
    if zones != [] {
      var n := |zones| - 1;
      assert zones == zones[..n] + [zones[n]] && zones[n] in zones;
      PairsZonesHas(cfg, z1, zones[..n], a, b);
      PairsAllHas(cfg, Sources(cfg, z1), Sources(cfg, zones[n]), a, b);
    }
  }

  /** The dispatched pairs hold every pair of sources that may be dispatched. */
  lemma {:induction false} PairClaimsHas(cfg: Config, zones: seq<string>, a: Claim, b: Claim)
    ensures a.zone in zones && a in Sources(cfg, a.zone)
            && b.zone in NetZones(cfg) && b in Sources(cfg, b.zone) && Dispatched(cfg, a, b) ==>
              (a, b) in PairClaims(cfg, zones)
  {
    hide Dispatched, Sources, NetZones;
    if zones != [] {
      var n := |zones| - 1;
      assert zones == zones[..n] + [zones[n]] && zones[n] in zones;
      PairClaimsHas(cfg, zones[..n], a, b);
      PairsZonesHas(cfg, zones[n], NetZones(cfg), a, b);
    }
  }

  // ---------------------------------------------------------- whole interfaces

  /** When at most one pair of a rank holds, that pair decides. */
  lemma {:induction false} OnlyOne(cfg: Config, cs: seq<(Claim, Claim)>, r: nat, c: (Claim, Claim), p: Packet)
    requires Rank(c) == r && PairHolds(c, p)
    requires forall d :: d in cs && Rank(d) == r && PairHolds(d, p) ==> d == c
    ensures OfferPairs(cfg, Ranked(cs, r), p) == if c in cs then PairMeaning(cfg, c.0.zone, c.1.zone, p) else None
  {
    hide PairMeaning, HoldsFrom, HoldsTo;
    if cs != [] {
      var pre, d := cs[..|cs| - 1], cs[|cs| - 1];
      assert d in cs && cs == pre + [d];
      OnlyOne(cfg, pre, r, c, p);
      if Rank(d) == r {
        assert Ranked(cs, r) == Ranked(pre, r) + [d];
      } else {
        assert Ranked(cs, r) == Ranked(pre, r);
      }
    }
  }

  /** A whole claim is made exactly by the owner of its interface, if a net zone. */
  lemma WholeMade(cfg: Config, c: Claim)
    requires NamesOk(cfg) && PhysicalsOk(cfg) && c.nets.None?
    ensures Made(cfg, c) <==> Owner(cfg.interfaces, c.iface) == Some(c.zone) && Net(cfg, Some(c.zone))
    ensures Made(cfg, c) ==> c in WholeClaims(cfg.interfaces, c.zone) && c in Sources(cfg, c.zone)
    ensures Made(cfg, c) ==> HairpinOption(cfg.interfaces, c.zone, c.iface) == Hairpin(cfg.interfaces, c.iface)
    ensures Made(cfg, c) && Hairpin(cfg.interfaces, c.iface) ==> RoutebackIn(cfg.interfaces, c.zone)
  {
    hide Owner, Hairpin, HairpinOption, WholeClaims, HostClaims, RoutebackIn, ZoneNameOk;
    NetZonesIn(cfg, cfg.zones);
    OwnerOwned(cfg.interfaces, c.iface);
    assert c == Whole(c.zone, c.iface);
    if Owned(cfg.interfaces, c) {
      OwnedOwner(cfg.interfaces, c);
      WholeClaimsHas(cfg.interfaces, c);
      assert c in Sources(cfg, c.zone);
    }
  }

  /** Two whole claims are dispatched unless they are one interface without routeback. */
  lemma WholeDispatched(cfg: Config, a: Claim, b: Claim)
    requires NamesOk(cfg) && PhysicalsOk(cfg) && Made(cfg, a) && Made(cfg, b) && a.nets.None? && b.nets.None?
    ensures Dispatched(cfg, a, b) <==> a.iface != b.iface || Hairpin(cfg.interfaces, a.iface)
  {
    hide NamesOk, PhysicalsOk, Made, Hairpin, HairpinOption, WholeClaims, Owner, RoutebackIn;
    WholeMade(cfg, a);
    WholeMade(cfg, b);
    if a.zone == b.zone && a != b {
      TwoMembers(WholeClaims(cfg.interfaces, a.zone), a, b);
    }
  }

  /** The verdict among whole interfaces is that of the owners. */
  lemma WholesRead(cfg: Config, p: Packet)
    requires NamesOk(cfg) && PhysicalsOk(cfg)
    ensures OfferPairs(cfg, Ranked(PairClaims(cfg, NetZones(cfg)), 2), p) == BetweenOwners(cfg, p)
  {
    hide NamesOk, PhysicalsOk, Made, PairClaims, NetZones, OfferPairs, Ranked, PairMeaning, Dispatched, Owner,
         Hairpin, Sources, WholeClaims, HairpinOption, RoutebackIn;
    var cs := PairClaims(cfg, NetZones(cfg));
    PairClaimsMade(cfg, NetZones(cfg));
    var a, b := Owner(cfg.interfaces, p.iif), Owner(cfg.interfaces, p.oif);
    forall d | d in cs && Rank(d) == 2 && PairHolds(d, p)
      ensures a == Some(d.0.zone) && b == Some(d.1.zone) && d == (Whole(d.0.zone, p.iif), Whole(d.1.zone, p.oif))
      ensures Net(cfg, a) && Net(cfg, b)
    {
      WholeMade(cfg, d.0);
      WholeMade(cfg, d.1);
    }
    if Net(cfg, a) && Net(cfg, b) {
      var c := (Whole(a.value, p.iif), Whole(b.value, p.oif));
      WholeMade(cfg, c.0);
      WholeMade(cfg, c.1);
      WholeDispatched(cfg, c.0, c.1);
      InNetZones(cfg, c.0);
      InNetZones(cfg, c.1);
      PairClaimsHas(cfg, NetZones(cfg), c.0, c.1);
      OnlyOne(cfg, cs, 2, c, p);
    } else {
      PairSilent(cfg, cs, 2, p);
    }
  }

  lemma InNetZones(cfg: Config, c: Claim)
    requires Made(cfg, c)
    ensures c.zone in NetZones(cfg)
  {
  }

  /** With no hosts entries, the owners of the two interfaces decide. */
  lemma FlatForward(cfg: Config, p: Packet)
    requires NamesOk(cfg) && PhysicalsOk(cfg) && cfg.hosts == []
    ensures ZonesMeaning(cfg, Forward, p) == BetweenOwners(cfg, p)
  {
    hide NamesOk, PhysicalsOk, PairClaims, NetZones, OfferPairs, Ranked, BetweenOwners, Dispatched, Owned;
    var cs := PairClaims(cfg, NetZones(cfg));
    PairClaimsMade(cfg, NetZones(cfg));
    PairSilent(cfg, cs, 0, p);
    PairSilent(cfg, cs, 1, p);
    WholesRead(cfg, p);
  }

  // ----------------------------------------------------------- hosts entries

  /** The packet comes from addresses that a hosts entry gives to the zone. */
  predicate FromHosts(cfg: Config, z: string, p: Packet) {
    exists i :: 0 <= i < |cfg.hosts| && var h := cfg.hosts[i]; h.zone == z && h.iface == p.iif && h.nets in p.srcNets
  }

  /** It goes to such addresses. */
  predicate ToHosts(cfg: Config, z: string, p: Packet) {
    exists i :: 0 <= i < |cfg.hosts| && var h := cfg.hosts[i]; h.zone == z && h.iface == p.oif && h.nets in p.dstNets
  }

  /** Traffic may turn round in the zone: an interface says so, or it has two. */
  predicate MayTurn(cfg: Config, z: string) {
    exists i, j :: 0 <= i <= j < |cfg.interfaces| && cfg.interfaces[i].zone == cfg.interfaces[j].zone == Some(z)
      && (i < j || cfg.interfaces[i].routeback)
  }

  /** The hosts file concerns a packet between these zones: both sides are named
      in it, or one is and the other owns its interface. */
  predicate Between(cfg: Config, z1: string, z2: string, both: bool, p: Packet) {
    && (z1 == z2 ==> MayTurn(cfg, z1))
    && if both then FromHosts(cfg, z1, p) && ToHosts(cfg, z2, p)
       else || (FromHosts(cfg, z1, p) && Owner(cfg.interfaces, p.oif) == Some(z2))
            || (Owner(cfg.interfaces, p.iif) == Some(z1) && ToHosts(cfg, z2, p))
  }

  /** From one zone, the destination zones in file order, until one decides. */
  function FirstTo(cfg: Config, z1: string, zones: seq<string>, both: bool, p: Packet): Option<Verdict> {
    if zones == [] then None
    else
      var z2 := zones[|zones| - 1];
      OrElse(FirstTo(cfg, z1, zones[..|zones| - 1], both, p),
             if z2 != cfg.fw && Between(cfg, z1, z2, both, p) then PairMeaning(cfg, z1, z2, p) else None)
  }

  /** The source zones in file order. */
  function FirstFrom(cfg: Config, zones: seq<string>, both: bool, p: Packet): Option<Verdict> {
    if zones == [] then None
    else
      var z1 := zones[|zones| - 1];
      OrElse(FirstFrom(cfg, zones[..|zones| - 1], both, p),
             if z1 != cfg.fw then FirstTo(cfg, z1, cfg.zones, both, p) else None)
  }

  lemma {:induction false} RankedPlus(cfg: Config, a: seq<(Claim, Claim)>, b: seq<(Claim, Claim)>, r: nat, p: Packet)
    ensures OfferPairs(cfg, Ranked(a + b, r), p)
         == OrElse(OfferPairs(cfg, Ranked(a, r), p), OfferPairs(cfg, Ranked(b, r), p))
  {
    hide PairMeaning, HoldsFrom, HoldsTo;
    if b == [] {
      assert a + b == a;
    } else {
      var pre, c := b[..|b| - 1], b[|b| - 1];
      assert a + b == a + pre + [c] && b == pre + [c];
      RankedPlus(cfg, a, pre, r, p);
      RankedSnoc(cfg, a + pre, c, r, p);
      RankedSnoc(cfg, pre, c, r, p);
    }
  }

  lemma RankedSnoc(cfg: Config, cs: seq<(Claim, Claim)>, c: (Claim, Claim), r: nat, p: Packet)
    ensures OfferPairs(cfg, Ranked(cs + [c], r), p)
         == OrElse(OfferPairs(cfg, Ranked(cs, r), p),
                   if Rank(c) == r && PairHolds(c, p) then PairMeaning(cfg, c.0.zone, c.1.zone, p) else None)
  {
    hide PairMeaning, HoldsFrom, HoldsTo, Rank;
    assert (cs + [c])[..|cs|] == cs && (cs + [c])[|cs|] == c;
    if Rank(c) == r {
      assert Ranked(cs + [c], r) == Ranked(cs, r) + [c];
      assert (Ranked(cs, r) + [c])[..|Ranked(cs, r)|] == Ranked(cs, r);
    } else {
      assert Ranked(cs + [c], r) == Ranked(cs, r);
    }
  }

  /** Some pair of this rank holds. */
  ghost predicate HoldsIn(cs: seq<(Claim, Claim)>, r: nat, p: Packet) {
    exists c :: c in cs && Rank(c) == r && PairHolds(c, p)
  }

  /** Pairs between the same two zones say the same. */
  lemma {:induction false} OneVoice(cfg: Config, cs: seq<(Claim, Claim)>, r: nat, z1: string, z2: string, p: Packet)
    requires forall c :: c in cs ==> c.0.zone == z1 && c.1.zone == z2
    ensures OfferPairs(cfg, Ranked(cs, r), p) == if HoldsIn(cs, r, p) then PairMeaning(cfg, z1, z2, p) else None
  {
    hide PairMeaning, PairHolds, Rank, OfferPairs, Ranked;
    if cs == [] {
      NothingOffered(cfg, r, p);
    } else {
      var pre, c := cs[..|cs| - 1], cs[|cs| - 1];
      assert cs == pre + [c] && c in cs;
      OneVoice(cfg, pre, r, z1, z2, p);
      RankedSnoc(cfg, pre, c, r, p);
      assert HoldsIn(cs, r, p) <==> HoldsIn(pre, r, p) || (Rank(c) == r && PairHolds(c, p));
    }
  }

  lemma NothingOffered(cfg: Config, r: nat, p: Packet)
    ensures OfferPairs(cfg, Ranked([], r), p) == None
  {
  }

  lemma {:induction false} HostClaimsHas(hosts: seq<Host>, z: string, c: Claim)
    ensures c in HostClaims(hosts, z) <==>
            c.zone == z && c.nets.Some?
            && exists i :: 0 <= i < |hosts| && hosts[i] == Host(z, c.iface, c.nets.value)
  {
    if hosts != [] {
      var n := |hosts| - 1;
      HostClaimsHas(hosts[..n], z, c);
      assert forall i :: 0 <= i < n ==> hosts[..n][i] == hosts[i];
    }
  }

  /** What a zone's sources are, by address and whole. */
  lemma SourcesHave(cfg: Config, z: string, c: Claim)
    requires PhysicalsOk(cfg)
    ensures c in Sources(cfg, z) <==>
            c.zone == z && if c.nets.None? then Owner(cfg.interfaces, c.iface) == Some(z)
                           else exists i :: 0 <= i < |cfg.hosts| && cfg.hosts[i] == Host(z, c.iface, c.nets.value)
  {
    hide HostClaims, WholeClaims, Owner, Hairpin, HairpinOption, RoutebackIn;
    HostClaimsHas(cfg.hosts, z, c);
    WholeClaimsIn(cfg.interfaces, z);
    OwnerOwned(cfg.interfaces, c.iface);
    assert c.nets.None? ==> c == Whole(c.zone, c.iface);
    if c.nets.None? && Owned(cfg.interfaces, c) {
      OwnedOwner(cfg.interfaces, c);
      WholeClaimsHas(cfg.interfaces, c);
    }
  }

  predicate From(cfg: Config, z: string, narrow: bool, p: Packet) {
    if narrow then FromHosts(cfg, z, p) else Owner(cfg.interfaces, p.iif) == Some(z)
  }

  predicate To(cfg: Config, z: string, narrow: bool, p: Packet) {
    if narrow then ToHosts(cfg, z, p) else Owner(cfg.interfaces, p.oif) == Some(z)
  }

  /** A source of the zone holds: of a hosts entry, or the whole interface. */
  lemma SourceHolds(cfg: Config, z: string, narrow: bool, p: Packet)
    requires PhysicalsOk(cfg)
    ensures (exists c :: c in Sources(cfg, z) && c.nets.Some? == narrow && HoldsFrom(c, p)) <==> From(cfg, z, narrow, p)
    ensures (exists c :: c in Sources(cfg, z) && c.nets.Some? == narrow && HoldsTo(c, p)) <==> To(cfg, z, narrow, p)
  {
    hide Sources, Owner, PhysicalsOk;
    forall c
      ensures c in Sources(cfg, z) <==>
              c.zone == z && if c.nets.None? then Owner(cfg.interfaces, c.iface) == Some(z)
                             else exists i :: 0 <= i < |cfg.hosts| && cfg.hosts[i] == Host(z, c.iface, c.nets.value)
    {
      SourcesHave(cfg, z, c);
    }
    if narrow {
      forall i | 0 <= i < |cfg.hosts| && cfg.hosts[i].zone == z
        ensures Claim(z, cfg.hosts[i].iface, Some(cfg.hosts[i].nets)) in Sources(cfg, z)
      {
        var h := cfg.hosts[i];
        assert h == Host(z, h.iface, h.nets);
      }
    } else {
      assert Owner(cfg.interfaces, p.iif) == Some(z) ==> Whole(z, p.iif) in Sources(cfg, z);
      assert Owner(cfg.interfaces, p.oif) == Some(z) ==> Whole(z, p.oif) in Sources(cfg, z);
    }
  }

  lemma {:induction false} WholeClaimsCount(ifaces: seq<Interface>, z: string)
    ensures WholeClaims(ifaces, z) != [] <==> exists i :: 0 <= i < |ifaces| && ifaces[i].zone == Some(z)
    ensures |WholeClaims(ifaces, z)| > 1 <==>
            exists i, j :: 0 <= i < j < |ifaces| && ifaces[i].zone == ifaces[j].zone == Some(z)
  {
    if ifaces != [] {
      var n := |ifaces| - 1;
      WholeClaimsCount(ifaces[..n], z);
      assert forall i :: 0 <= i < n ==> ifaces[..n][i] == ifaces[i];
    }
  }

  lemma RoutebackRead(cfg: Config, z: string)
    ensures Routeback(cfg, z) <==> MayTurn(cfg, z)
  {
    hide WholeClaims;
    WholeClaimsCount(cfg.interfaces, z);
  }

  lemma NarrowDispatched(cfg: Config, a: Claim, b: Claim)
    requires a.nets.Some? || b.nets.Some?
    ensures Dispatched(cfg, a, b) <==> (a.zone == b.zone ==> MayTurn(cfg, a.zone))
  {
    hide Routeback, MayTurn, HairpinOption;
    RoutebackRead(cfg, a.zone);
  }

  /** Some pair of the two zones' sources holds, narrow or whole as said. */
  ghost predicate HoldsBy(cfg: Config, z1: string, z2: string, n1: bool, n2: bool, p: Packet) {
    exists c :: c in PairsAll(cfg, Sources(cfg, z1), Sources(cfg, z2))
      && c.0.nets.Some? == n1 && c.1.nets.Some? == n2 && PairHolds(c, p)
  }

  lemma HoldsByRead(cfg: Config, z1: string, z2: string, n1: bool, n2: bool, p: Packet)
    requires PhysicalsOk(cfg) && (n1 || n2)
    ensures HoldsBy(cfg, z1, z2, n1, n2, p) <==>
            (z1 == z2 ==> MayTurn(cfg, z1)) && From(cfg, z1, n1, p) && To(cfg, z2, n2, p)
  {
    hide Sources, PhysicalsOk, HoldsFrom, HoldsTo, MayTurn, From, To, PairsAll, Dispatched;
    var xs, bs := Sources(cfg, z1), Sources(cfg, z2);
    SourceHolds(cfg, z1, n1, p);
    SourceHolds(cfg, z2, n2, p);
    SourcesZone(cfg, z1);
    SourcesZone(cfg, z2);
    forall a, b | a in xs && b in bs && a.nets.Some? == n1 && b.nets.Some? == n2
      ensures (a, b) in PairsAll(cfg, xs, bs) <==> (z1 == z2 ==> MayTurn(cfg, z1))
    {
      PairsAllHas(cfg, xs, bs, a, b);
      NarrowDispatched(cfg, a, b);
    }
    forall c | c in PairsAll(cfg, xs, bs)
      ensures c.0 in xs && c.1 in bs
    {
      PairsAllHas(cfg, xs, bs, c.0, c.1);
      assert c == (c.0, c.1);
    }
    if (z1 == z2 ==> MayTurn(cfg, z1)) && From(cfg, z1, n1, p) && To(cfg, z2, n2, p) {
      var a :| a in xs && a.nets.Some? == n1 && HoldsFrom(a, p);
      var b :| b in bs && b.nets.Some? == n2 && HoldsTo(b, p);
      assert (a, b) in PairsAll(cfg, xs, bs) && PairHolds((a, b), p);
    }
  }

  lemma SourcesZone(cfg: Config, z: string)
    ensures forall c :: c in Sources(cfg, z) ==> c.zone == z
  {
    HostClaimsIn(cfg.hosts, z);
    WholeClaimsIn(cfg.interfaces, z);
  }

  /** What the pairs of two zones' sources say, when at most one side is whole. */
  lemma BetweenRead(cfg: Config, z1: string, z2: string, both: bool, p: Packet)
    requires PhysicalsOk(cfg)
    ensures OfferPairs(cfg, Ranked(PairsAll(cfg, Sources(cfg, z1), Sources(cfg, z2)), if both then 0 else 1), p)
         == if Between(cfg, z1, z2, both, p) then PairMeaning(cfg, z1, z2, p) else None
  {
    hide Sources, PhysicalsOk, MayTurn, PairsAll, PairHolds, PairMeaning, FromHosts, ToHosts, Owner, OfferPairs, Ranked;
    var cs, r := PairsAll(cfg, Sources(cfg, z1), Sources(cfg, z2)), if both then 0 else 1;
    HoldsByRead(cfg, z1, z2, true, true, p);
    HoldsByRead(cfg, z1, z2, true, false, p);
    HoldsByRead(cfg, z1, z2, false, true, p);
    SourcesZone(cfg, z1);
    SourcesZone(cfg, z2);
    forall c | c in cs
      ensures c.0.zone == z1 && c.1.zone == z2
    {
      PairsAllHas(cfg, Sources(cfg, z1), Sources(cfg, z2), c.0, c.1);
    }
    OneVoice(cfg, cs, r, z1, z2, p);
  }

  lemma {:induction false} ToRead(cfg: Config, z1: string, zones: seq<string>, both: bool, p: Packet)
    requires PhysicalsOk(cfg)
    ensures OfferPairs(cfg, Ranked(PairsZones(cfg, z1, NetZonesOf(cfg, zones)), if both then 0 else 1), p)
         == FirstTo(cfg, z1, zones, both, p)
  {
    hide PhysicalsOk, Sources, PairMeaning, Between, OfferPairs, Ranked, PairsAll;
    var r := if both then 0 else 1;
    if zones == [] {
      NothingOffered(cfg, r, p);
    } else {
      var pre, z2 := zones[..|zones| - 1], zones[|zones| - 1];
      var nets := NetZonesOf(cfg, pre);
      ToRead(cfg, z1, pre, both, p);
      BetweenRead(cfg, z1, z2, both, p);
      if z2 != cfg.fw && Sources(cfg, z2) != [] {
        assert NetZonesOf(cfg, zones) == nets + [z2] && (nets + [z2])[..|nets|] == nets;
        RankedPlus(cfg, PairsZones(cfg, z1, nets), PairsAll(cfg, Sources(cfg, z1), Sources(cfg, z2)), r, p);
      } else {
        assert NetZonesOf(cfg, zones) == nets;
        PairsAllNone(cfg, Sources(cfg, z1), []);
        NothingOffered(cfg, r, p);
      }
    }
  }

  lemma {:induction false} PairsAllNone(cfg: Config, xs: seq<Claim>, bs: seq<Claim>)
    ensures xs == [] || bs == [] ==> PairsAll(cfg, xs, bs) == []
  {
    if xs != [] {
      PairsAllNone(cfg, xs[..|xs| - 1], bs);
    }
  }

  lemma {:induction false} FromRead(cfg: Config, zones: seq<string>, both: bool, p: Packet)
    requires PhysicalsOk(cfg)
    ensures OfferPairs(cfg, Ranked(PairClaims(cfg, NetZonesOf(cfg, zones)), if both then 0 else 1), p)
         == FirstFrom(cfg, zones, both, p)
  {
    hide PhysicalsOk, Sources, FirstTo, OfferPairs, Ranked, PairsZones;
    var r := if both then 0 else 1;
    if zones == [] {
      NothingOffered(cfg, r, p);
    } else {
      var pre, z1 := zones[..|zones| - 1], zones[|zones| - 1];
      var nets := NetZonesOf(cfg, pre);
      FromRead(cfg, pre, both, p);
      ToRead(cfg, z1, cfg.zones, both, p);
      if z1 != cfg.fw && Sources(cfg, z1) != [] {
        assert NetZonesOf(cfg, zones) == nets + [z1] && (nets + [z1])[..|nets|] == nets;
        RankedPlus(cfg, PairClaims(cfg, nets), PairsZones(cfg, z1, NetZones(cfg)), r, p);
      } else {
        assert NetZonesOf(cfg, zones) == nets;
        PairsZonesNone(cfg, z1, NetZones(cfg));
        NothingOffered(cfg, r, p);
      }
    }
  }

  lemma {:induction false} PairsZonesNone(cfg: Config, z1: string, zones: seq<string>)
    ensures Sources(cfg, z1) == [] ==> PairsZones(cfg, z1, zones) == []
  {
    hide Sources;
    if zones != [] {
      PairsZonesNone(cfg, z1, zones[..|zones| - 1]);
      PairsAllNone(cfg, Sources(cfg, z1), Sources(cfg, zones[|zones| - 1]));
    }
  }

  /** For any hosts file: zones named on both sides of the packet first, then
      zones named on one side against the owner of the other interface, then the
      owners of both. */
  lemma ForwardReading(cfg: Config, p: Packet)
    requires NamesOk(cfg) && PhysicalsOk(cfg)
    ensures ZonesMeaning(cfg, Forward, p)
         == OrElse(FirstFrom(cfg, cfg.zones, true, p),
                   OrElse(FirstFrom(cfg, cfg.zones, false, p), BetweenOwners(cfg, p)))
  {
    hide NamesOk, PhysicalsOk, PairClaims, OfferPairs, Ranked, FirstFrom, BetweenOwners;
    FromRead(cfg, cfg.zones, true, p);
    FromRead(cfg, cfg.zones, false, p);
    WholesRead(cfg, p);
  }

  // ----------------------------------------------------------- the other hooks

  /** The packet is from, or to, addresses that a hosts entry gives to the zone. */
  predicate SideHosts(cfg: Config, hook: Hook, z: string, p: Packet) {
    if hook == Input then FromHosts(cfg, z, p) else ToHosts(cfg, z, p)
  }

  /** The zones of the hosts entries that the packet meets, in file order, until one decides. */
  function FirstSide(cfg: Config, hook: Hook, zones: seq<string>, p: Packet): Option<Verdict> {
    if zones == [] then None
    else
      var z := zones[|zones| - 1];
      OrElse(FirstSide(cfg, hook, zones[..|zones| - 1], p),
             if z != cfg.fw && SideHosts(cfg, hook, z, p) then ZoneMeaning(cfg, hook, z, p) else None)
  }

  lemma {:induction false} NarrowPlus(cfg: Config, hook: Hook, a: seq<Claim>, b: seq<Claim>, p: Packet)
    ensures Offer(cfg, hook, Narrow(a + b, true), p)
         == OrElse(Offer(cfg, hook, Narrow(a, true), p), Offer(cfg, hook, Narrow(b, true), p))
  {
    hide ZoneMeaning, Holds;
    if b == [] {
      assert a + b == a;
    } else {
      var pre, c := b[..|b| - 1], b[|b| - 1];
      assert a + b == a + pre + [c] && b == pre + [c];
      NarrowPlus(cfg, hook, a, pre, p);
      NarrowSnoc(cfg, hook, a + pre, c, p);
      NarrowSnoc(cfg, hook, pre, c, p);
    }
  }

  lemma NarrowSnoc(cfg: Config, hook: Hook, cs: seq<Claim>, c: Claim, p: Packet)
    ensures Offer(cfg, hook, Narrow(cs + [c], true), p)
         == OrElse(Offer(cfg, hook, Narrow(cs, true), p),
                   if c.nets.Some? && Holds(hook, c, p) then ZoneMeaning(cfg, hook, c.zone, p) else None)
  {
    hide ZoneMeaning, Holds;
    assert (cs + [c])[..|cs|] == cs && (cs + [c])[|cs|] == c;
    if c.nets.Some? {
      assert Narrow(cs + [c], true) == Narrow(cs, true) + [c];
      assert (Narrow(cs, true) + [c])[..|Narrow(cs, true)|] == Narrow(cs, true);
    } else {
      assert Narrow(cs + [c], true) == Narrow(cs, true);
    }
  }

  lemma {:induction false} SideVoice(cfg: Config, hook: Hook, cs: seq<Claim>, z: string, p: Packet)
    requires forall c :: c in cs ==> c.zone == z
    ensures Offer(cfg, hook, Narrow(cs, true), p)
         == if exists c :: c in cs && c.nets.Some? && Holds(hook, c, p) then ZoneMeaning(cfg, hook, z, p) else None
  {
    hide ZoneMeaning, Holds;
    if cs != [] {
      var pre, c := cs[..|cs| - 1], cs[|cs| - 1];
      assert cs == pre + [c] && c in cs;
      SideVoice(cfg, hook, pre, z, p);
      NarrowSnoc(cfg, hook, pre, c, p);
    }
  }

  lemma {:induction false} SideRead(cfg: Config, hook: Hook, zones: seq<string>, p: Packet)
    requires PhysicalsOk(cfg) && hook != Forward
    ensures Offer(cfg, hook, Narrow(ClaimsOf(cfg, NetZonesOf(cfg, zones)), true), p) == FirstSide(cfg, hook, zones, p)
  {
    hide PhysicalsOk, Sources, ZoneMeaning, FromHosts, ToHosts, HoldsFrom, HoldsTo, Offer, Narrow;
    if zones == [] {
      NothingNarrow(cfg, hook, p);
    } else {
      var pre, z := zones[..|zones| - 1], zones[|zones| - 1];
      var nets := NetZonesOf(cfg, pre);
      SideRead(cfg, hook, pre, p);
      SourceHolds(cfg, z, true, p);
      SourcesZone(cfg, z);
      SideVoice(cfg, hook, Sources(cfg, z), z, p);
      if z != cfg.fw && Sources(cfg, z) != [] {
        assert NetZonesOf(cfg, zones) == nets + [z] && (nets + [z])[..|nets|] == nets;
        NarrowPlus(cfg, hook, ClaimsOf(cfg, nets), Sources(cfg, z), p);
      } else {
        assert NetZonesOf(cfg, zones) == nets;
      }
    }
  }

  lemma NothingNarrow(cfg: Config, hook: Hook, p: Packet)
    ensures Offer(cfg, hook, Narrow([], true), p) == None
  {
  }

  /** What the owner of the interface says. */
  ghost function OwnerSide(cfg: Config, hook: Hook, p: Packet): Option<Verdict> {
    var z := Owner(cfg.interfaces, IfaceOf(hook, p));
    if Net(cfg, z) then ZoneMeaning(cfg, hook, z.value, p) else None
  }

  lemma OwnerRead(cfg: Config, hook: Hook, p: Packet)
    requires NamesOk(cfg) && PhysicalsOk(cfg) && hook != Forward
    ensures Offer(cfg, hook, Narrow(ClaimsOf(cfg, NetZones(cfg)), false), p) == OwnerSide(cfg, hook, p)
  {
    hide NamesOk, PhysicalsOk, Made, NetZones, ClaimsOf, Offer, Narrow, ZoneMeaning, Owner, Net, WholeClaims,
         Sources, HairpinOption, Hairpin, RoutebackIn;
    var cs, z := ClaimsOf(cfg, NetZones(cfg)), Owner(cfg.interfaces, IfaceOf(hook, p));
    ClaimsMade(cfg, NetZones(cfg));
    if Net(cfg, z) {
      SomeNet(cfg, z);
      var c := Whole(z.value, IfaceOf(hook, p));
      WholeMade(cfg, c);
      InNetZones(cfg, c);
      ClaimsHas(cfg, NetZones(cfg), c);
      WholeOffer(cfg, hook, cs, c, p);
    } else {
      forall d | d in cs && d.nets.None?
        ensures !Holds(hook, d, p)
      {
        WholeMade(cfg, d);
      }
      WholeSilent(cfg, hook, cs, p);
    }
  }

  /** To or from the firewall, for any hosts file: the zones of the hosts entries
      met, then the owner of the interface. */
  lemma SideReading(cfg: Config, hook: Hook, p: Packet)
    requires NamesOk(cfg) && PhysicalsOk(cfg) && hook != Forward
    ensures ZonesMeaning(cfg, hook, p) == OrElse(FirstSide(cfg, hook, cfg.zones, p), OwnerSide(cfg, hook, p))
  {
    hide NamesOk, PhysicalsOk, ClaimsOf, Offer, Narrow, FirstSide, OwnerSide;
    SideRead(cfg, hook, cfg.zones, p);
    OwnerRead(cfg, hook, p);
  }

  /** Over an interface without hosts entries its owner decides. */
  lemma FlatSide(cfg: Config, hook: Hook, p: Packet)
    requires NamesOk(cfg) && PhysicalsOk(cfg) && hook != Forward && !Scoped(cfg, IfaceOf(hook, p))
    ensures var z := Owner(cfg.interfaces, IfaceOf(hook, p));
      ZonesMeaning(cfg, hook, p) == if Net(cfg, z) then ZoneMeaning(cfg, hook, z.value, p) else None
  {
    hide NamesOk, PhysicalsOk, Made, NetZones, ClaimsOf, Offer, Narrow, ZoneMeaning, Owner, Net, Scoped;
    ClaimsMade(cfg, NetZones(cfg));
    NarrowSilent(cfg, hook, ClaimsOf(cfg, NetZones(cfg)), p);
    OwnerRead(cfg, hook, p);
  }

  lemma SomeNet(cfg: Config, z: Option<string>)
    requires Net(cfg, z)
    ensures z.Some?
  {
  }

  lemma {:induction false} ClaimsHas(cfg: Config, zones: seq<string>, c: Claim)
    requires c.zone in zones && c in Sources(cfg, c.zone)
    ensures c in ClaimsOf(cfg, zones)
  {
    hide Sources;
    var n := |zones| - 1;
    if c.zone != zones[n] {
      assert c.zone in zones[..n];
      ClaimsHas(cfg, zones[..n], c);
    }
  }
}
