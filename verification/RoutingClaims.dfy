/** Where a claimed packet goes: by its provider's mark, by its source address,
    by an rtrule, by a routes file line; and what a stop puts back. */
module RoutingClaims {
  import opened Wrappers
  import opened Text
  import opened Routing
  import opened RoutingRebuild
  import opened RoutingEgress

  // ------------------------------------------------------- looking up a rule

  lemma {:induction false} BestLeast(k: Kernel, rs: seq<Rule>, p: Packet, r: Rule)
    requires r in rs && Answers(k, r, p)
    ensures Best(k, rs, p).Some? && Best(k, rs, p).value.pref <= r.pref
  {
    hide Answers;
    var n := |rs| - 1;
    if r in rs[..n] {
      BestLeast(k, rs[..n], p, r);
    }
  }

  /** No rule that is tried before this one, or with it, sends the packet elsewhere. */
  ghost predicate Claims(k: Kernel, p: Packet, pref: nat, t: nat) {
    forall r :: r in k.rules && Answers(k, r, p) && r.pref <= pref ==> r.table == t
  }

  /** A rule that answers decides the table when nothing before it does. */
  lemma RuleDecides(k: Kernel, p: Packet, r: Rule)
    requires r in k.rules && Answers(k, r, p) && Claims(k, p, r.pref, r.table)
    ensures Best(k, k.rules, p).Some? && Best(k, k.rules, p).value.table == r.table
  {
    hide Answers;
    BestLeast(k, k.rules, p, r);
    BestIn(k, k.rules, p);
  }

  // --------------------------------------------------------- a provider's table

  /** Distinct table numbers outside the kernel's own, and explicit gateways. */
  predicate Numbered(cfg: Config) {
    && (forall q :: q in cfg.providers ==> !(250 <= q.number <= 255) && q.gateway != "default")
    && (forall i, j :: 0 <= i < j < |cfg.providers| ==> cfg.providers[i].number != cfg.providers[j].number)
  }

  function Link(p: Provider): seq<Hop> {
    [Hop(None, Some(p.iface), 1)]
  }

  /** Its gateway on the link, and a default by that gateway. */
  function OwnRoutes(p: Provider): Table {
    map[Key(p.gateway, 0) := Link(p), Key("default", 0) := Via(p)]
  }

  lemma OneProvider(p: Provider, i: nat, e: Env, s: State)
    ensures var s' := RunAll(BuildProvider(p, i), e, s);
      if !Usable(e, p.name, p.iface) then s' == s
      else
        && (p.number != MAIN ==>
            && Routes(s'.kernel, p.number) ==
                 Routes(s.kernel, p.number)[Key(p.gateway, 0) := Link(p)][Key("default", 0) := Via(p)]
            && Routes(s'.kernel, MAIN) == Routes(s.kernel, MAIN)[Key(p.gateway, 0) := Link(p)])
        && s'.kernel.rules == s.kernel.rules + (if p.mark == 0 then [] else [MarkedRule(p, i)])
                              + if p.loose then [] else SourceRules(Addresses(e, p.iface), 20000, p.number)
  {
    hide Usable, SourceRules, Addresses, Routes, RunAll, Run, BuildProvider, MarkedRule;
    var u := IfUsable(p.name, p.iface);
    var head := if p.mark == 0 then [] else [Cmd(u, Add(MarkedRule(p, i)))];
    var mid := [Cmd(u, Replace(MAIN, Key(p.gateway, 0), Link(p))),
                Cmd(u, Replace(p.number, Key(p.gateway, 0), Link(p))),
                Cmd(u, Replace(p.number, Key("default", 0), Via(p)))];
    var tail := if p.loose then [] else [Cmd(u, AddSources(p.iface, 20000, p.number))];
    ProviderIs(p, i);
    RunAllPlus(head, mid + tail, e, s);
    RunAllPlus(mid, tail, e, RunAll(head, e, s));
    OptionalRule(head, e, s);
    ProviderPuts(p, e, RunAll(head, e, s));
    OptionalRule(tail, e, RunAll(mid, e, RunAll(head, e, s)));
  }

  lemma ProviderIs(p: Provider, i: nat)
    ensures var u := IfUsable(p.name, p.iface);
      BuildProvider(p, i) ==
        (if p.mark == 0 then [] else [Cmd(u, Add(MarkedRule(p, i)))])
        + ([Cmd(u, Replace(MAIN, Key(p.gateway, 0), Link(p))), Cmd(u, Replace(p.number, Key(p.gateway, 0), Link(p))),
            Cmd(u, Replace(p.number, Key("default", 0), Via(p)))]
           + if p.loose then [] else [Cmd(u, AddSources(p.iface, 20000, p.number))])
  {
  }

  /** At most one command, that adds rules. */
  lemma OptionalRule(cs: seq<Cmd>, e: Env, s: State)
    requires cs == [] || (|cs| == 1 && cs[0].guard.IfUsable? && (cs[0].op.Add? || cs[0].op.AddSources?))
    ensures var s' := RunAll(cs, e, s);
      if cs == [] || !Usable(e, cs[0].guard.name, cs[0].guard.iface) then s' == s
      else
        && s'.kernel.tables == s.kernel.tables && (forall t :: Routes(s'.kernel, t) == Routes(s.kernel, t))
        && s'.kernel.rules == s.kernel.rules
             + (if cs[0].op.Add? then [cs[0].op.rule]
                else SourceRules(Addresses(e, cs[0].op.iface), cs[0].op.pref, cs[0].op.table))
  {
    hide Usable, SourceRules, Addresses;
    RunAtMostOne(cs, e, s);
  }

  /** The three routes of a usable provider. */
  lemma ProviderPuts(p: Provider, e: Env, s: State)
    ensures var u := IfUsable(p.name, p.iface);
      var s' := RunAll([Cmd(u, Replace(MAIN, Key(p.gateway, 0), Link(p))),
                        Cmd(u, Replace(p.number, Key(p.gateway, 0), Link(p))),
                        Cmd(u, Replace(p.number, Key("default", 0), Via(p)))], e, s);
      if !Usable(e, p.name, p.iface) then s' == s
      else
        && s'.kernel.rules == s.kernel.rules
        && (p.number != MAIN ==>
            && Routes(s'.kernel, p.number) ==
                 Routes(s.kernel, p.number)[Key(p.gateway, 0) := Link(p)][Key("default", 0) := Via(p)]
            && Routes(s'.kernel, MAIN) == Routes(s.kernel, MAIN)[Key(p.gateway, 0) := Link(p)])
  {
    hide Usable, Routes, RunAll;
    var u := IfUsable(p.name, p.iface);
    var b, c, d := Cmd(u, Replace(MAIN, Key(p.gateway, 0), Link(p))),
        Cmd(u, Replace(p.number, Key(p.gateway, 0), Link(p))), Cmd(u, Replace(p.number, Key("default", 0), Via(p)));
    assert [b, c, d] == [b] + [c, d];
    RunAllPlus([b], [c, d], e, s);
    RunAtMostOne([b], e, s);
    TwoRun([c, d], e, Run(b, e, s));
    if Usable(e, p.name, p.iface) {
      PutRoute(s, MAIN, Key(p.gateway, 0), Link(p));
      PutRoute(Run(b, e, s), p.number, Key(p.gateway, 0), Link(p));
      PutRoute(Run(c, e, Run(b, e, s)), p.number, Key("default", 0), Via(p));
    }
  }

  /** The provider's mark looks up the provider's table. */
  function MarkedRule(p: Provider, i: nat): Rule {
    Rule(10000 + i, None, None, None, Some(Mark(p.mark, 0xff)), p.number)
  }

  lemma RunAtMostOne(cs: seq<Cmd>, e: Env, s: State)
    requires |cs| <= 1
    ensures RunAll(cs, e, s) == if cs == [] then s else Run(cs[0], e, s)
  {
    hide Run;
    if cs != [] {
      assert cs[..0] == [] && RunAll(cs[..0], e, s) == s;
    }
  }

  lemma PutRoute(s: State, t: nat, key: Key, hops: seq<Hop>)
    ensures var s' := WithTable(s, t, Routes(s.kernel, t)[key := hops]);
      && Routes(s'.kernel, t) == Routes(s.kernel, t)[key := hops]
      && (forall u :: u != t ==> Routes(s'.kernel, u) == Routes(s.kernel, u))
      && s'.kernel.rules == s.kernel.rules
  {
  }

  lemma ProviderTouches(p: Provider, i: nat, t: nat)
    requires t != MAIN && t != p.number
    ensures forall c :: c in BuildProvider(p, i) ==> !Touches(c.op, t)
  {
  }

  /** What the provider half adds for the provider at i. */
  lemma {:induction false} ProviderAdded(ps: seq<Provider>, i: nat, e: Env, s: State)
    requires i < |ps| && Usable(e, ps[i].name, ps[i].iface) && ps[i].number != MAIN
    requires forall j, l :: 0 <= j < l < |ps| ==> ps[j].number != ps[l].number
    requires Routes(s.kernel, ps[i].number) == map[]
    ensures var p, k := ps[i], RunAll(BuildProviders(ps), e, s).kernel;
      && Routes(k, p.number) == map[Key(p.gateway, 0) := Link(p)][Key("default", 0) := Via(p)]
      && (p.mark != 0 ==> MarkedRule(p, i) in k.rules)
      && (!p.loose ==>
          forall a :: a in Addresses(e, p.iface) ==> Rule(20000, Some(a), None, None, None, p.number) in k.rules)
  {
    hide Usable, Addresses, Routes, BuildProvider, SourceRules, MarkedRule;
    var n := |ps| - 1;
    var p, last := ps[i], ps[n];
    var mid := RunAll(BuildProviders(ps[..n]), e, s);
    RunAllPlus(BuildProviders(ps[..n]), BuildProvider(last, n), e, s);
    OneProvider(last, n, e, mid);
    if i < n {
      ProviderAdded(ps[..n], i, e, s);
      ProviderTouches(last, n, p.number);
      TableFrame(BuildProvider(last, n), e, mid, p.number);
    } else {
      OthersTouch(ps[..n], p.number);
      TableFrame(BuildProviders(ps[..n]), e, s, p.number);
      AllSources(Addresses(e, p.iface), 20000, p.number);
    }
  }

  lemma {:induction false} OthersTouch(ps: seq<Provider>, t: nat)
    requires t != MAIN && forall p :: p in ps ==> p.number != t
    ensures forall c :: c in BuildProviders(ps) ==> !Touches(c.op, t)
  {
    hide BuildProvider, Touches;
    if ps != [] {
      assert ps[|ps| - 1] in ps;
      OthersTouch(ps[..|ps| - 1], t);
      ProviderTouches(ps[|ps| - 1], |ps| - 1, t);
    }
  }

  lemma {:induction false} AllSources(addrs: seq<string>, pref: nat, t: nat)
    ensures forall a :: a in addrs ==> Rule(pref, Some(a), None, None, None, t) in SourceRules(addrs, pref, t)
  {
    if addrs != [] {
      AllSources(addrs[..|addrs| - 1], pref, t);
    }
  }

  // ------------------------------------------------------- the rest of the build

  function RestCmds(cfg: Config): seq<Cmd> {
    BuildRtRules(cfg.providers, cfg.rtrules) + BuildDefaults(cfg) + BuildRoutes(cfg.routes)
  }

  lemma RebuildParts(cfg: Config, e: Env, k: Kernel)
    requires Active(cfg)
    ensures var s := RunAll(ClearCmds(cfg), e, Boot(k));
            Rebuild(cfg, e, k) == RunAll(RestCmds(cfg), e, RunAll(BuildProviders(cfg.providers), e, s)).kernel
  {
    hide BuildProviders, BuildRtRules, BuildDefaults, BuildRoutes, ClearCmds, RunAll;
    var a, b := BuildProviders(cfg.providers), RestCmds(cfg);
    assert BuildCmds(cfg) == a + b;
    RunAllPlus(a, b, e, RunAll(ClearCmds(cfg), e, Boot(k)));
  }

  lemma {:induction false} RtRulesTouch(ps: seq<Provider>, rs: seq<RtRule>)
    ensures forall c, t :: c in BuildRtRules(ps, rs) ==> !Touches(c.op, t)
  {
    hide TableOf;
    if rs != [] {
      RtRulesTouch(ps, rs[..|rs| - 1]);
    }
  }

  lemma {:induction false} RtRulesSpare(ps: seq<Provider>, rs: seq<RtRule>, r: Rule)
    requires forall x :: x in rs ==> x.priority != r.pref
    ensures forall c :: c in BuildRtRules(ps, rs) ==> Spares(c.op, r)
  {
    hide TableOf;
    if rs != [] {
      assert rs[|rs| - 1] in rs;
      RtRulesSpare(ps, rs[..|rs| - 1], r);
    }
  }

  lemma {:induction false} HopsTouch(ps: seq<Provider>)
    ensures forall c, t :: c in HopCmds(ps) && t != DEFAULT_TABLE ==> !Touches(c.op, t)
    ensures forall c, t :: c in FallbackCmds(ps) && t != DEFAULT_TABLE ==> !Touches(c.op, t)
    ensures forall c, r :: c in HopCmds(ps) || c in FallbackCmds(ps) ==> Spares(c.op, r)
  {
    if ps != [] {
      HopsTouch(ps[..|ps| - 1]);
    }
  }

  lemma DefaultsTouch(cfg: Config, t: nat, r: Rule)
    ensures !(250 <= t <= 255) ==> forall c :: c in BuildDefaults(cfg) ==> !Touches(c.op, t)
    ensures r.pref != 32766 ==> forall c :: c in BuildDefaults(cfg) ==> Spares(c.op, r)
  {
    hide DefaultManaged, HopCmds, FallbackCmds;
    HopsTouch(cfg.providers);
    assert forall c :: c in InstallCmds() && !(250 <= t <= 255) ==> !Touches(c.op, t);
    assert forall c :: c in InstallCmds() && r.pref != 32766 ==> Spares(c.op, r);
  }

  lemma {:induction false} RoutesSpare(rs: seq<Static>, r: Rule)
    ensures forall c :: c in BuildRoutes(rs) ==> Spares(c.op, r)
  {
    if rs != [] {
      RoutesSpare(rs[..|rs| - 1], r);
    }
  }

  /** Rules at other prefs than the rtrules' and main's own survive the rest. */
  lemma RestSpares(cfg: Config, r: Rule, e: Env, s: State)
    requires r in s.kernel.rules && r.pref != 32766 && forall x :: x in cfg.rtrules ==> x.priority != r.pref
    ensures r in RunAll(RestCmds(cfg), e, s).kernel.rules
  {
    hide BuildRtRules, BuildDefaults, BuildRoutes, RunAll, Spares;
    RtRulesSpare(cfg.providers, cfg.rtrules, r);
    DefaultsTouch(cfg, 0, r);
    RoutesSpare(cfg.routes, r);
    AllSpare(RestCmds(cfg), e, s, r);
  }

  // ------------------------------------------------------------ the routes file

  /** The table with these lines' routes put over it. */
  function Overlaid(t: Table, rs: seq<Static>, n: nat): Table {
    if rs == [] then t
    else
      var r, under := rs[|rs| - 1], Overlaid(t, rs[..|rs| - 1], n);
      if r.table == n then under[Key(r.dest, 0) := [Hop(r.gateway, r.device, 1)]] else under
  }

  lemma {:induction false} RoutesOverlay(rs: seq<Static>, e: Env, s: State, n: nat)
    ensures Routes(RunAll(BuildRoutes(rs), e, s).kernel, n) == Overlaid(Routes(s.kernel, n), rs, n)
  {
    hide Routes;
    if rs != [] {
      var pre, r := BuildRoutes(rs[..|rs| - 1]), rs[|rs| - 1];
      RoutesOverlay(rs[..|rs| - 1], e, s, n);
      var c := Cmd(Always, Replace(r.table, Key(r.dest, 0), [Hop(r.gateway, r.device, 1)]));
      assert BuildRoutes(rs) == pre + [c];
      RunAllPlus(pre, [c], e, s);
      RunAtMostOne([c], e, RunAll(pre, e, s));
      PutRoute(RunAll(pre, e, s), r.table, Key(r.dest, 0), [Hop(r.gateway, r.device, 1)]);
    }
  }

  /** Some line of the file sets this route. */
  predicate Sets(rs: seq<Static>, n: nat, key: Key) {
    exists i :: 0 <= i < |rs| && rs[i].table == n && key == Key(rs[i].dest, 0)
  }

  lemma {:induction false} OverlaidHas(t: Table, rs: seq<Static>, n: nat)
    ensures forall key :: key in Overlaid(t, rs, n) <==> key in t || Sets(rs, n, key)
    ensures forall key :: key in t && !Sets(rs, n, key) ==> Overlaid(t, rs, n)[key] == t[key]
  {
    if rs != [] {
      var m := |rs| - 1;
      OverlaidHas(t, rs[..m], n);
      forall key
        ensures Sets(rs, n, key) <==> Sets(rs[..m], n, key) || (rs[m].table == n && key == Key(rs[m].dest, 0))
      {
        assert forall i :: 0 <= i < m ==> rs[..m][i] == rs[i];
      }
    }
  }

  /** No later line sets the same route. */
  predicate LastLine(rs: seq<Static>, j: nat) {
    j < |rs| && forall l :: j < l < |rs| ==> rs[l].table != rs[j].table || rs[l].dest != rs[j].dest
  }

  lemma {:induction false} OverlaidLast(t: Table, rs: seq<Static>, j: nat)
    requires LastLine(rs, j)
    ensures var r, o := rs[j], Overlaid(t, rs, rs[j].table);
            Key(r.dest, 0) in o && o[Key(r.dest, 0)] == [Hop(r.gateway, r.device, 1)]
  {
    if j < |rs| - 1 {
      OverlaidLast(t, rs[..|rs| - 1], j);
    }
  }

  /** Each routes file line is in its table after a rebuild, the last of those
      for one destination. */
  lemma StaticRoute(cfg: Config, e: Env, k: Kernel, j: nat)
    requires LastLine(cfg.routes, j)
    ensures var r, t := cfg.routes[j], Routes(Rebuild(cfg, e, k), cfg.routes[j].table);
            Key(r.dest, 0) in t && t[Key(r.dest, 0)] == [Hop(r.gateway, r.device, 1)]
  {
    hide BuildProviders, BuildRtRules, BuildDefaults, BuildRoutes, ClearCmds, RunAll, Routes, Rebuild, Overlaid;
    RebuildParts(cfg, e, k);
    var s := RunAll(BuildProviders(cfg.providers), e, RunAll(ClearCmds(cfg), e, Boot(k)));
    var mid := BuildRtRules(cfg.providers, cfg.rtrules) + BuildDefaults(cfg);
    RunAllPlus(mid, BuildRoutes(cfg.routes), e, s);
    RoutesOverlay(cfg.routes, e, RunAll(mid, e, s), cfg.routes[j].table);
    OverlaidLast(Routes(RunAll(mid, e, s).kernel, cfg.routes[j].table), cfg.routes, j);
  }

  // ------------------------------------------------------ after a whole rebuild

  /** A usable provider's own table: its gateway, its default, the file's lines. */
  lemma OwnTableIs(cfg: Config, e: Env, k: Kernel, i: nat)
    requires FewProviders(cfg) && Tidy(cfg, k.rules) && Numbered(cfg)
    requires i < |cfg.providers| && Usable(e, cfg.providers[i].name, cfg.providers[i].iface)
    ensures var p := cfg.providers[i];
            Routes(Rebuild(cfg, e, k), p.number) == Overlaid(OwnRoutes(p), cfg.routes, p.number)
  {
    hide BuildProviders, BuildRtRules, BuildDefaults, BuildRoutes, ClearCmds, RunAll, Routes, Rebuild, Overlaid,
         Tidy, Touches, FewProviders, Kept;
    var p := cfg.providers[i];
    assert p in cfg.providers;
    var s0 := RunAll(ClearCmds(cfg), e, Boot(k));
    var s := RunAll(BuildProviders(cfg.providers), e, s0);
    ClearErases(cfg, e, k);
    assert OwnTable(cfg, p.number);
    RebuildParts(cfg, e, k);
    ProviderAdded(cfg.providers, i, e, s0);
    var mid := BuildRtRules(cfg.providers, cfg.rtrules) + BuildDefaults(cfg);
    RunAllPlus(mid, BuildRoutes(cfg.routes), e, s);
    RtRulesTouch(cfg.providers, cfg.rtrules);
    DefaultsTouch(cfg, p.number, STOCK);
    TableFrame(mid, e, s, p.number);
    RoutesOverlay(cfg.routes, e, RunAll(mid, e, s), p.number);
  }

  /** The packet is for neither the provider's gateway nor a line of its table. */
  predicate Beyond(cfg: Config, q: Provider, p: Packet) {
    q.gateway !in p.dests
    && forall r :: r in cfg.routes && r.table == q.number ==> r.dest != "default" && r.dest !in p.dests
  }

  /** In a usable provider's table such a packet takes its default. */
  lemma DefaultPicked(cfg: Config, e: Env, k: Kernel, i: nat, p: Packet)
    requires FewProviders(cfg) && Tidy(cfg, k.rules) && Numbered(cfg)
    requires i < |cfg.providers| && Usable(e, cfg.providers[i].name, cfg.providers[i].iface)
    requires Beyond(cfg, cfg.providers[i], p)
    ensures var q := cfg.providers[i];
      var t := Routes(Rebuild(cfg, e, k), q.number);
      Picks(t, p, Key("default", 0)) && t[Key("default", 0)] == Via(q)
  {
    hide Rebuild, Routes, Overlaid, Tidy, FewProviders, Rank;
    var q := cfg.providers[i];
    assert q in cfg.providers;
    OwnTableIs(cfg, e, k, i);
    OverlaidHas(OwnRoutes(q), cfg.routes, q.number);
    var key := Key("default", 0);
    assert !Sets(cfg.routes, q.number, key);
    forall o | o in Routes(Rebuild(cfg, e, k), q.number) && Covers(o, p)
      ensures o == key
    {
    }
  }

  /** A rule for a usable provider's table answers such a packet, and takes it
      out by that provider when nothing before it claims the packet. */
  lemma LeavesBy(cfg: Config, e: Env, k: Kernel, i: nat, p: Packet, r: Rule)
    requires FewProviders(cfg) && Tidy(cfg, k.rules) && Numbered(cfg)
    requires i < |cfg.providers| && Usable(e, cfg.providers[i].name, cfg.providers[i].iface)
    requires Beyond(cfg, cfg.providers[i], p)
    requires r in Rebuild(cfg, e, k).rules && Matches(r, p) && r.table == cfg.providers[i].number
    requires Claims(Rebuild(cfg, e, k), p, r.pref, r.table)
    ensures Leaves(Rebuild(cfg, e, k), p, cfg.providers[i].number, Via(cfg.providers[i]))
  {
    hide Rebuild, Tidy, FewProviders, Numbered, Usable, Beyond;
    DefaultPicked(cfg, e, k, i, p);
    RuleDecides(Rebuild(cfg, e, k), p, r);
  }

  lemma AddedStays(cfg: Config, e: Env, k: Kernel, i: nat, r: Rule)
    requires FewProviders(cfg) && Tidy(cfg, k.rules) && Numbered(cfg)
    requires i < |cfg.providers| && Usable(e, cfg.providers[i].name, cfg.providers[i].iface)
    requires r.pref != 32766 && forall x :: x in cfg.rtrules ==> x.priority != r.pref
    requires var q := cfg.providers[i];
      (q.mark != 0 && r == MarkedRule(q, i))
      || (!q.loose && exists a :: a in Addresses(e, q.iface) && r == Rule(20000, Some(a), None, None, None, q.number))
    ensures r in Rebuild(cfg, e, k).rules
  {
    hide BuildProviders, RestCmds, ClearCmds, RunAll, Routes, Rebuild, Tidy, FewProviders, Kept, Addresses, MarkedRule;
    var q := cfg.providers[i];
    assert q in cfg.providers;
    var s0 := RunAll(ClearCmds(cfg), e, Boot(k));
    ClearErases(cfg, e, k);
    assert OwnTable(cfg, q.number);
    RebuildParts(cfg, e, k);
    ProviderAdded(cfg.providers, i, e, s0);
    RestSpares(cfg, r, e, RunAll(BuildProviders(cfg.providers), e, s0));
  }

  /** A packet with a usable provider's mark leaves by that provider, unless a
      rule tried before sends it elsewhere. */
  lemma ByMark(cfg: Config, e: Env, k: Kernel, i: nat, p: Packet)
    requires FewProviders(cfg) && Tidy(cfg, k.rules) && Numbered(cfg)
    requires i < |cfg.providers| && Usable(e, cfg.providers[i].name, cfg.providers[i].iface)
    requires forall x :: x in cfg.rtrules ==> x.priority != 10000 + i
    requires var q := cfg.providers[i];
      q.mark != 0 && Mark(q.mark, 0xff) in p.marks && Beyond(cfg, q, p)
      && Claims(Rebuild(cfg, e, k), p, 10000 + i, q.number)
    ensures Leaves(Rebuild(cfg, e, k), p, cfg.providers[i].number, Via(cfg.providers[i]))
  {
    hide Rebuild, Tidy, Numbered, Usable, Beyond, Claims, Leaves;
    AddedStays(cfg, e, k, i, MarkedRule(cfg.providers[i], i));
    LeavesBy(cfg, e, k, i, p, MarkedRule(cfg.providers[i], i));
  }

  /** A packet from an address of a usable provider's interface leaves by it,
      unless the provider is loose or a rule tried before sends it elsewhere. */
  lemma BySource(cfg: Config, e: Env, k: Kernel, i: nat, a: string, p: Packet)
    requires FewProviders(cfg) && Tidy(cfg, k.rules) && Numbered(cfg)
    requires i < |cfg.providers| && Usable(e, cfg.providers[i].name, cfg.providers[i].iface)
    requires forall x :: x in cfg.rtrules ==> x.priority != 20000
    requires var q := cfg.providers[i];
      !q.loose && a in Addresses(e, q.iface) && a in p.froms && Beyond(cfg, q, p)
      && Claims(Rebuild(cfg, e, k), p, 20000, q.number)
    ensures Leaves(Rebuild(cfg, e, k), p, cfg.providers[i].number, Via(cfg.providers[i]))
  {
    hide Rebuild, Tidy, Numbered, Usable, Beyond, Claims, Leaves, FewProviders;
    var r := Rule(20000, Some(a), None, None, None, cfg.providers[i].number);
    AddedStays(cfg, e, k, i, r);
    LeavesBy(cfg, e, k, i, p, r);
  }

  // --------------------------------------------------------------- the rtrules

  /** The source an rtrule matches: its own, or its interface's first address. */
  function SourceOf(e: Env, x: RtRule): Option<string> {
    if x.runtimeIface.None? then x.source
    else if Addresses(e, x.runtimeIface.value) != [] then Some(Addresses(e, x.runtimeIface.value)[0])
    else None
  }

  /** An rtrule for an interface without addresses is left out. */
  predicate InForce(e: Env, x: RtRule) {
    x.runtimeIface.Some? ==> Addresses(e, x.runtimeIface.value) != []
  }

  /** The packet meets the rtrule's columns. */
  predicate Meets(e: Env, x: RtRule, p: Packet) {
    && (SourceOf(e, x).Some? ==> SourceOf(e, x).value in p.froms) && (x.dest.Some? ==> x.dest.value in p.tos)
    && (x.iif.Some? ==> x.iif.value == p.iif) && (x.mark.Some? ==> x.mark.value in p.marks)
  }

  /** Putting y in deletes x first: same priority, and no column of y that x lacks. */
  predicate Evicts(e: Env, y: RtRule, x: RtRule) {
    && InForce(e, y) && y.priority == x.priority
    && (SourceOf(e, y).Some? ==> SourceOf(e, x) == SourceOf(e, y)) && (y.dest.Some? ==> x.dest == y.dest)
    && (y.iif.Some? ==> x.iif == y.iif) && (y.mark.Some? ==> x.mark == y.mark)
  }

  function RuleOf(ps: seq<Provider>, e: Env, x: RtRule): Rule {
    Rule(x.priority, SourceOf(e, x), x.dest, x.iif, x.mark, TableOf(ps, x.provider))
  }

  lemma OneRtRule(ps: seq<Provider>, e: Env, x: RtRule, s: State, r: Rule)
    ensures InForce(e, x) ==> RuleOf(ps, e, x) in RunAll(BuildRtRule(ps, x), e, s).kernel.rules
    ensures r in s.kernel.rules && !Fits(Pattern(x.priority, SourceOf(e, x), x.dest, x.iif, x.mark, None), r)
            ==> r in RunAll(BuildRtRule(ps, x), e, s).kernel.rules
    ensures r in s.kernel.rules && !InForce(e, x) ==> r in RunAll(BuildRtRule(ps, x), e, s).kernel.rules
  {
    hide TableOf, Addresses, Fits, DeleteFirst;
    TwoRun(BuildRtRule(ps, x), e, s);
    var pat := Pattern(x.priority, SourceOf(e, x), x.dest, x.iif, x.mark, None);
    if r in s.kernel.rules && !Fits(pat, r) {
      DeleteFirstSpares(s.kernel.rules, pat, r);
    }
  }

  /** An rtrule in force that no later one evicts is there in the end. */
  lemma {:induction false} RtRuleStays(ps: seq<Provider>, rs: seq<RtRule>, j: nat, e: Env, s: State)
    requires j < |rs| && InForce(e, rs[j]) && forall l :: j < l < |rs| ==> !Evicts(e, rs[l], rs[j])
    ensures RuleOf(ps, e, rs[j]) in RunAll(BuildRtRules(ps, rs), e, s).kernel.rules
  {
    hide BuildRtRule, RuleOf, InForce, RunAll, SourceOf;
    var n, pre := |rs| - 1, BuildRtRules(ps, rs[..|rs| - 1]);
    RunAllPlus(pre, BuildRtRule(ps, rs[n]), e, s);
    OneRtRule(ps, e, rs[n], RunAll(pre, e, s), RuleOf(ps, e, rs[j]));
    if j < n {
      RtRuleStays(ps, rs[..n], j, e, s);
      assert !Evicts(e, rs[n], rs[j]);
      EvictsFits(ps, e, rs[n], rs[j]);
    }
  }

  lemma EvictsFits(ps: seq<Provider>, e: Env, y: RtRule, x: RtRule)
    ensures Evicts(e, y, x) <==>
            InForce(e, y) && Fits(Pattern(y.priority, SourceOf(e, y), y.dest, y.iif, y.mark, None), RuleOf(ps, e, x))
  {
    hide TableOf, SourceOf, InForce;
  }

  lemma RtRuleIn(cfg: Config, e: Env, k: Kernel, j: nat)
    requires Active(cfg) && j < |cfg.rtrules| && InForce(e, cfg.rtrules[j]) && cfg.rtrules[j].priority != 32766
    requires forall l :: j < l < |cfg.rtrules| ==> !Evicts(e, cfg.rtrules[l], cfg.rtrules[j])
    ensures RuleOf(cfg.providers, e, cfg.rtrules[j]) in Rebuild(cfg, e, k).rules
  {
    hide BuildProviders, BuildRtRules, BuildDefaults, BuildRoutes, ClearCmds, RunAll, Routes, Rebuild, Evicts, InForce,
         SourceOf, TableOf, Spares;
    RebuildParts(cfg, e, k);
    var s := RunAll(BuildProviders(cfg.providers), e, RunAll(ClearCmds(cfg), e, Boot(k)));
    var a, b := BuildRtRules(cfg.providers, cfg.rtrules), BuildDefaults(cfg) + BuildRoutes(cfg.routes);
    var r := RuleOf(cfg.providers, e, cfg.rtrules[j]);
    assert RestCmds(cfg) == a + b;
    RunAllPlus(a, b, e, s);
    RtRuleStays(cfg.providers, cfg.rtrules, j, e, s);
    DefaultsTouch(cfg, 0, r);
    RoutesSpare(cfg.routes, r);
    AllSpare(b, e, RunAll(a, e, s), r);
  }

  /** The name means this provider: by number, or by a name that is no number in use. */
  predicate Refers(cfg: Config, name: string, q: Provider) {
    NatText(q.number) == name
    || (q.name == name && forall o :: o in cfg.providers ==> NatText(o.number) != name && (o.name == name ==> o == q))
  }

  lemma {:induction false} NamedIs(ps: seq<Provider>, name: string, byNumber: bool)
    ensures match Named(ps, name, byNumber)
            case None => forall q :: q in ps ==> !NamedBy(q, name, byNumber)
            case Some(n) => exists q :: q in ps && NamedBy(q, name, byNumber) && q.number == n
  {
    hide NamedBy;
    if ps != [] {
      var n := |ps| - 1;
      NamedIs(ps[..n], name, byNumber);
      assert ps[n] in ps && ps == ps[..n] + [ps[n]];
    }
  }

  lemma ReferredTable(cfg: Config, name: string, q: Provider)
    requires q in cfg.providers && Refers(cfg, name, q)
    ensures TableOf(cfg.providers, name) == q.number
  {
    NamedIs(cfg.providers, name, true);
    NamedIs(cfg.providers, name, false);
    if NatText(q.number) == name {
      forall o | o in cfg.providers && NatText(o.number) == name
        ensures o.number == q.number
      {
        NatTextInjective(o.number, q.number);
      }
    }
  }

  lemma MainTable(cfg: Config)
    requires forall o :: o in cfg.providers ==>
               NatText(o.number) !in ["main", "default"] && o.name !in ["main", "default"]
    ensures TableOf(cfg.providers, "main") == MAIN && TableOf(cfg.providers, "default") == DEFAULT_TABLE
  {
    NamedIs(cfg.providers, "main", true);
    NamedIs(cfg.providers, "main", false);
    NamedIs(cfg.providers, "default", true);
    NamedIs(cfg.providers, "default", false);
  }

  /** A packet that meets an rtrule looks up its table, unless a rule tried
      before sends it elsewhere, a later rtrule evicted it, or the table has no
      route for the packet. */
  lemma ByRtRule(cfg: Config, e: Env, k: Kernel, j: nat, p: Packet, t: nat)
    requires Active(cfg) && j < |cfg.rtrules| && InForce(e, cfg.rtrules[j]) && cfg.rtrules[j].priority != 32766
    requires forall l :: j < l < |cfg.rtrules| ==> !Evicts(e, cfg.rtrules[l], cfg.rtrules[j])
    requires Meets(e, cfg.rtrules[j], p) && t == TableOf(cfg.providers, cfg.rtrules[j].provider)
    requires exists key :: key in Routes(Rebuild(cfg, e, k), t) && Covers(key, p)
    requires Claims(Rebuild(cfg, e, k), p, cfg.rtrules[j].priority, t)
    ensures var k' := Rebuild(cfg, e, k); Best(k', k'.rules, p).Some? && Best(k', k'.rules, p).value.table == t
  {
    hide Rebuild, TableOf, SourceOf, InForce, Evicts, Claims, Routes, Covers, Active;
    RtRuleIn(cfg, e, k, j);
    RuleDecides(Rebuild(cfg, e, k), p, RuleOf(cfg.providers, e, cfg.rtrules[j]));
  }

  /** So an rtrule that names a usable provider sends the packet out by it. */
  lemma ByRtRuleProvider(cfg: Config, e: Env, k: Kernel, j: nat, i: nat, p: Packet)
    requires FewProviders(cfg) && Tidy(cfg, k.rules) && Numbered(cfg)
    requires i < |cfg.providers| && Usable(e, cfg.providers[i].name, cfg.providers[i].iface)
    requires j < |cfg.rtrules| && InForce(e, cfg.rtrules[j]) && cfg.rtrules[j].priority != 32766
    requires forall l :: j < l < |cfg.rtrules| ==> !Evicts(e, cfg.rtrules[l], cfg.rtrules[j])
    requires var q := cfg.providers[i];
      Refers(cfg, cfg.rtrules[j].provider, q) && Meets(e, cfg.rtrules[j], p) && Beyond(cfg, q, p)
      && Claims(Rebuild(cfg, e, k), p, cfg.rtrules[j].priority, q.number)
    ensures Leaves(Rebuild(cfg, e, k), p, cfg.providers[i].number, Via(cfg.providers[i]))
  {
    hide Rebuild, TableOf, SourceOf, InForce, Evicts, Claims, Leaves, Tidy, FewProviders, Numbered, Beyond, Usable,
         Refers;
    assert cfg.providers[i] in cfg.providers;
    ReferredTable(cfg, cfg.rtrules[j].provider, cfg.providers[i]);
    RtRuleIn(cfg, e, k, j);
    LeavesBy(cfg, e, k, i, p, RuleOf(cfg.providers, e, cfg.rtrules[j]));
  }

  // ----------------------------------------------------------- gateways in main

  /** The gateway at i is no later usable provider's. */
  predicate LastGateway(ps: seq<Provider>, e: Env, i: nat) {
    i < |ps| && forall l :: i < l < |ps| && Usable(e, ps[l].name, ps[l].iface) ==> ps[l].gateway != ps[i].gateway
  }

  lemma {:induction false} MainLinked(ps: seq<Provider>, i: nat, e: Env, s: State)
    requires LastGateway(ps, e, i) && Usable(e, ps[i].name, ps[i].iface)
    requires forall q :: q in ps ==> q.number != MAIN
    ensures var t := Routes(RunAll(BuildProviders(ps), e, s).kernel, MAIN);
            Key(ps[i].gateway, 0) in t && t[Key(ps[i].gateway, 0)] == Link(ps[i])
  {
    hide Usable, Routes, BuildProvider, SourceRules, MarkedRule, Addresses;
    var n := |ps| - 1;
    assert ps[n] in ps;
    var mid := RunAll(BuildProviders(ps[..n]), e, s);
    RunAllPlus(BuildProviders(ps[..n]), BuildProvider(ps[n], n), e, s);
    OneProvider(ps[n], n, e, mid);
    if i < n {
      MainLinked(ps[..n], i, e, s);
    }
  }

  /** The command keeps main's routes other than defaults. */
  predicate KeepsLinks(op: Op) {
    !Touches(op, MAIN) || op.DelMainDefaults?
  }

  lemma {:induction false} LinksFrame(cs: seq<Cmd>, e: Env, s: State, key: Key)
    requires (forall c :: c in cs ==> KeepsLinks(c.op)) && key in Routes(s.kernel, MAIN) && key.dest != "default"
    ensures var t := Routes(RunAll(cs, e, s).kernel, MAIN); key in t && t[key] == Routes(s.kernel, MAIN)[key]
  {
    hide Run, KeepsLinks, Routes;
    if cs != [] {
      var last, mid := cs[|cs| - 1], RunAll(cs[..|cs| - 1], e, s);
      assert last in cs;
      LinksFrame(cs[..|cs| - 1], e, s, key);
      OneLink(last, e, mid, key);
    }
  }

  lemma OneLink(c: Cmd, e: Env, s: State, key: Key)
    requires KeepsLinks(c.op) && key in Routes(s.kernel, MAIN) && key.dest != "default"
    ensures var t := Routes(Run(c, e, s).kernel, MAIN); key in t && t[key] == Routes(s.kernel, MAIN)[key]
  {
    hide DeletePref, DeleteFirst, SourceRules, HopIs, ReplaceAll, Holds;
    if !Touches(c.op, MAIN) {
      OneTable(c, e, s, MAIN);
    }
  }

  lemma {:induction false} HopsKeepLinks(ps: seq<Provider>)
    ensures forall c :: c in HopCmds(ps) || c in FallbackCmds(ps) ==> KeepsLinks(c.op)
  {
    if ps != [] {
      HopsKeepLinks(ps[..|ps| - 1]);
    }
  }

  lemma DefaultsKeepLinks(cfg: Config)
    ensures forall c :: c in BuildDefaults(cfg) ==> KeepsLinks(c.op)
  {
    hide DefaultManaged, HopCmds, FallbackCmds;
    HopsKeepLinks(cfg.providers);
    assert forall c :: c in InstallCmds() ==> KeepsLinks(c.op);
  }

  /** After a rebuild a usable provider's gateway is reached on its own link. */
  lemma GatewayLinked(cfg: Config, e: Env, k: Kernel, i: nat)
    requires Numbered(cfg) && LastGateway(cfg.providers, e, i)
    requires Usable(e, cfg.providers[i].name, cfg.providers[i].iface)
    requires !Sets(cfg.routes, MAIN, Key(cfg.providers[i].gateway, 0))
    ensures var q, t := cfg.providers[i], Routes(Rebuild(cfg, e, k), MAIN);
            Key(q.gateway, 0) in t && t[Key(q.gateway, 0)] == Link(q)
  {
    hide BuildProviders, BuildRtRules, BuildDefaults, BuildRoutes, ClearCmds, RunAll, Routes, Rebuild, Overlaid,
         Touches, Usable, KeepsLinks, Sets;
    var q := cfg.providers[i];
    assert q in cfg.providers;
    RebuildParts(cfg, e, k);
    var s0 := RunAll(ClearCmds(cfg), e, Boot(k));
    var s := RunAll(BuildProviders(cfg.providers), e, s0);
    MainLinked(cfg.providers, i, e, s0);
    var mid := BuildRtRules(cfg.providers, cfg.rtrules) + BuildDefaults(cfg);
    RunAllPlus(mid, BuildRoutes(cfg.routes), e, s);
    RtRulesTouch(cfg.providers, cfg.rtrules);
    DefaultsKeepLinks(cfg);
    forall c | c in mid
      ensures KeepsLinks(c.op)
    {
      Untouching(c.op);
    }
    LinksFrame(mid, e, s, Key(q.gateway, 0));
    RoutesOverlay(cfg.routes, e, RunAll(mid, e, s), MAIN);
    OverlaidHas(Routes(RunAll(mid, e, s).kernel, MAIN), cfg.routes, MAIN);
  }

  lemma Untouching(op: Op)
    ensures !Touches(op, MAIN) ==> KeepsLinks(op)
  {
  }

  // --------------------------------------------------------------------- a stop

  /** No later saved route has the same key. */
  predicate LastSaved(saved: seq<Saved>, j: nat) {
    j < |saved| && forall l :: j < l < |saved| ==> saved[l].key != saved[j].key
  }

  lemma {:induction false} SavedPut(t: Table, saved: seq<Saved>, j: nat)
    requires LastSaved(saved, j)
    ensures saved[j].key in ReplaceAll(t, saved) && ReplaceAll(t, saved)[saved[j].key] == saved[j].hops
  {
    if j < |saved| - 1 {
      SavedPut(t, saved[..|saved| - 1], j);
    }
  }

  lemma Restored(cfg: Config, e: Env, s: State)
    requires Active(cfg)
    ensures var k := RunAll(RestoreCmds(cfg), e, s).kernel;
      && k.rules == s.kernel.rules + (if DefaultManaged(cfg) then [MAIN_RULE] else [])
      && Routes(k, MAIN) == ReplaceAll(Routes(s.kernel, MAIN), e.saved)
      && forall t :: t != MAIN ==> Routes(k, t) == Routes(s.kernel, t)
  {
    hide ReplaceAll, DefaultManaged;
    var head := if DefaultManaged(cfg) then [Cmd(Always, Add(MAIN_RULE))] else [];
    var tail := [Cmd(Always, RestoreSaved)];
    assert RestoreCmds(cfg) == head + tail;
    RunAllPlus(head, tail, e, s);
    RunAtMostOne(head, e, s);
    RunAtMostOne(tail, e, RunAll(head, e, s));
  }

  /** A stop leaves none of the managed rules and tables, puts main's lookup
      back at its stock pref, and puts back each default saved before the start. */
  lemma StopRestores(cfg: Config, e: Env, k: Kernel)
    requires Active(cfg) && FewProviders(cfg) && Tidy(cfg, k.rules)
    ensures var k' := Stopped(cfg, e, k);
      && (forall r :: r in k'.rules && Managed(cfg, r.pref) ==> DefaultManaged(cfg) && r == MAIN_RULE)
      && (forall t :: OwnTable(cfg, t) && t != MAIN ==> Routes(k', t) == map[])
      && (DefaultManaged(cfg) ==> MAIN_RULE in k'.rules)
      && forall j: nat :: LastSaved(e.saved, j) ==>
           e.saved[j].key in Routes(k', MAIN) && Routes(k', MAIN)[e.saved[j].key] == e.saved[j].hops
  {
    hide ClearCmds, RestoreCmds, Tidy, FewProviders, Managed, OwnTable, DefaultManaged, Active, ReplaceAll,
         RunAll;
    var s := RunAll(ClearCmds(cfg), e, Boot(k));
    ClearErases(cfg, e, k);
    Restored(cfg, e, s);
    forall j: nat | LastSaved(e.saved, j)
      ensures var t := ReplaceAll(Routes(s.kernel, MAIN), e.saved);
              e.saved[j].key in t && t[e.saved[j].key] == e.saved[j].hops
    {
      SavedPut(Routes(s.kernel, MAIN), e.saved, j);
    }
  }

  /** The route is as it was, or gone. */
  ghost predicate Fewer(a: Kernel, b: Kernel, t: nat, key: Key) {
    key in Routes(b, t) ==> key in Routes(a, t) && Routes(a, t)[key] == Routes(b, t)[key]
  }

  predicate Takes(op: Op) {
    op.DelAll? || op.DelOne? || op.Flush? || op.DelRoute?
  }

  lemma OneTakes(c: Cmd, e: Env, s: State, t: nat, key: Key)
    requires Takes(c.op)
    ensures Fewer(s.kernel, Run(c, e, s).kernel, t, key)
  {
    hide DeletePref, DeleteFirst, HopIs, Holds;
  }

  lemma {:induction false} AllTake(cs: seq<Cmd>, e: Env, s: State, t: nat, key: Key)
    requires forall c :: c in cs ==> Takes(c.op)
    ensures Fewer(s.kernel, RunAll(cs, e, s).kernel, t, key)
  {
    hide Run, Takes, Routes;
    if cs != [] {
      assert cs[|cs| - 1] in cs;
      AllTake(cs[..|cs| - 1], e, s, t, key);
      OneTakes(cs[|cs| - 1], e, RunAll(cs[..|cs| - 1], e, s), t, key);
    }
  }

  lemma {:induction false} ProvidersTake(ps: seq<Provider>)
    ensures forall c :: c in ClearProviders(ps) ==> Takes(c.op)
  {
    if ps != [] {
      ProvidersTake(ps[..|ps| - 1]);
    }
  }

  lemma {:induction false} SweepsTake(ps: seq<nat>)
    ensures forall c :: c in Sweeps(ps) ==> Takes(c.op)
  {
    if ps != [] {
      SweepsTake(ps[..|ps| - 1]);
    }
  }

  /** What the clear half does to a route that the routes file put there. */
  lemma {:induction false} RoutesTake(rs: seq<Static>, j: nat, e: Env, s: State)
    requires j < |rs|
    requires var r, t := rs[j], Routes(s.kernel, rs[j].table);
      Key(r.dest, 0) in t ==> t[Key(r.dest, 0)] == [Hop(r.gateway, r.device, 1)]
    ensures Key(rs[j].dest, 0) !in Routes(RunAll(ClearRoutes(rs), e, s).kernel, rs[j].table)
  {
    hide Routes;
    var n, pre := |rs| - 1, ClearRoutes(rs[..|rs| - 1]);
    var c := Cmd(Always, DelRoute(rs[n].table, rs[n].dest, rs[n].gateway, rs[n].device));
    assert ClearRoutes(rs) == pre + [c];
    RunAllPlus(pre, [c], e, s);
    var mid := RunAll(pre, e, s);
    RunAtMostOne([c], e, mid);
    OneTakes(c, e, mid, rs[j].table, Key(rs[j].dest, 0));
    if j < n {
      RoutesTake(rs[..n], j, e, s);
    } else {
      AllRoutesTake(rs[..n]);
      AllTake(pre, e, s, rs[j].table, Key(rs[j].dest, 0));
      RouteGone(rs[j], e, mid);
    }
  }

  lemma {:induction false} AllRoutesTake(rs: seq<Static>)
    ensures forall c :: c in ClearRoutes(rs) ==> Takes(c.op)
  {
    if rs != [] {
      AllRoutesTake(rs[..|rs| - 1]);
    }
  }

  lemma RouteGone(r: Static, e: Env, s: State)
    requires var t := Routes(s.kernel, r.table);
      Key(r.dest, 0) in t ==> t[Key(r.dest, 0)] == [Hop(r.gateway, r.device, 1)]
    ensures Key(r.dest, 0) !in
        Routes(Run(Cmd(Always, DelRoute(r.table, r.dest, r.gateway, r.device)), e, s).kernel, r.table)
  {
  }

  /** The clear half takes out each route that the last rebuild put in for the
      routes file, whatever table it is in. */
  lemma StaticCleared(cfg: Config, d: Env, e: Env, k: Kernel, j: nat)
    requires LastLine(cfg.routes, j)
    ensures var r := cfg.routes[j];
      Key(r.dest, 0) !in Routes(RunAll(ClearCmds(cfg), e, Boot(Rebuild(cfg, d, k))).kernel, r.table)
  {
    hide ClearProviders, Sweeps, ClearDefaults, ClearRoutes, RunAll, Routes, Rebuild, Takes, Priorities;
    StaticRoute(cfg, d, k, j);
    var r, s := cfg.routes[j], Boot(Rebuild(cfg, d, k));
    var pre := [Cmd(Always, DelAll(20000))] + ClearProviders(cfg.providers) + Sweeps(Priorities(cfg.rtrules))
        + ClearDefaults(cfg);
    ProvidersTake(cfg.providers);
    SweepsTake(Priorities(cfg.rtrules));
    DefaultsTake(cfg);
    RunAllPlus(pre, ClearRoutes(cfg.routes), e, s);
    AllTake(pre, e, s, r.table, Key(r.dest, 0));
    RoutesTake(cfg.routes, j, e, RunAll(pre, e, s));
  }

  lemma DefaultsTake(cfg: Config)
    ensures forall c :: c in ClearDefaults(cfg) ==> Takes(c.op)
    ensures Takes(DelAll(20000))
  {
    hide DefaultManaged, Balanced, HasFallback;
  }

  // ----------------------------------------------------- main's own stock rule

  /** The rules at one pref, in order. */
  function AtPref(rs: seq<Rule>, pref: nat): seq<Rule> {
    if rs == [] then [] else (if rs[0].pref == pref then [rs[0]] else []) + AtPref(rs[1..], pref)
  }

  lemma {:induction false} AtPrefPlus(a: seq<Rule>, b: seq<Rule>, pref: nat)
    ensures AtPref(a + b, pref) == AtPref(a, pref) + AtPref(b, pref)
  {
    if a == [] {
      assert a + b == b;
    } else {
      assert (a + b)[1..] == a[1..] + b;
      AtPrefPlus(a[1..], b, pref);
    }
  }

  lemma {:induction false} AtPrefNone(rs: seq<Rule>, pref: nat)
    requires forall r :: r in rs ==> r.pref != pref
    ensures AtPref(rs, pref) == []
  {
    if rs != [] {
      assert rs[0] in rs;
      AtPrefNone(rs[1..], pref);
    }
  }

  lemma {:induction false} AtPrefSwept(rs: seq<Rule>, other: nat, pref: nat)
    requires other != pref
    ensures AtPref(DeletePref(rs, other), pref) == AtPref(rs, pref)
  {
    if rs != [] {
      AtPrefSwept(rs[1..], other, pref);
      AtPrefPlus(if rs[0].pref == other then [] else [rs[0]], DeletePref(rs[1..], other), pref);
      assert [rs[0]][1..] == [];
    }
  }

  lemma {:induction false} AtPrefDeleted(rs: seq<Rule>, pat: Pattern, pref: nat)
    ensures AtPref(DeleteFirst(rs, pat), pref)
         == if pat.pref == pref then DeleteFirst(AtPref(rs, pref), pat) else AtPref(rs, pref)
  {
    if rs != [] {
      AtPrefDeleted(rs[1..], pat, pref);
      if !Fits(pat, rs[0]) {
        AtPrefPlus([rs[0]], DeleteFirst(rs[1..], pat), pref);
        assert [rs[0]][1..] == [];
      }
      if rs[0].pref == pref {
        assert AtPref(rs, pref)[1..] == AtPref(rs[1..], pref);
      } else {
        assert AtPref(rs, pref) == AtPref(rs[1..], pref);
      }
    }
  }

  /** The command neither adds nor deletes rules at this pref. */
  predicate Passes(op: Op, pref: nat) {
    match op
    case DelAll(p) => p != pref
    case DelOne(pat) => pat.pref != pref
    case Add(r) => r.pref != pref
    case AddSources(_, p, _) => p != pref
    case DelPinned(_, pat) => pat.pref != pref
    case AddPinned(_, r) => r.pref != pref
    case _ => true
  }

  lemma OnePasses(c: Cmd, e: Env, s: State, pref: nat)
    requires Passes(c.op, pref)
    ensures AtPref(Run(c, e, s).kernel.rules, pref) == AtPref(s.kernel.rules, pref)
  {
    hide Holds, DeletePref, DeleteFirst, SourceRules, NoDefaults, HopIs, ReplaceAll, Routes, AtPref, Fits, Addresses;
    var rs := s.kernel.rules;
    match c.op
    case DelAll(p) => AtPrefSwept(rs, p, pref);
    case DelOne(pat) => AtPrefDeleted(rs, pat, pref);
    case Add(r) => AtPrefPlus(rs, [r], pref); AtPrefNone([r], pref);
    case AddSources(i, p, t) =>
      SourcePrefs(Addresses(e, i), p, t);
      AtPrefPlus(rs, SourceRules(Addresses(e, i), p, t), pref);
      AtPrefNone(SourceRules(Addresses(e, i), p, t), pref);
    case DelPinned(i, pat) =>
      if Addresses(e, i) != [] {
        AtPrefDeleted(rs, pat.(from := Some(Addresses(e, i)[0])), pref);
      }
    case AddPinned(i, r) =>
      if Addresses(e, i) != [] {
        AtPrefPlus(rs, [r.(from := Some(Addresses(e, i)[0]))], pref);
        AtPrefNone([r.(from := Some(Addresses(e, i)[0]))], pref);
      }
    case _ =>
  }

  lemma {:induction false} AllPass(cs: seq<Cmd>, e: Env, s: State, pref: nat)
    requires forall c :: c in cs ==> Passes(c.op, pref)
    ensures AtPref(RunAll(cs, e, s).kernel.rules, pref) == AtPref(s.kernel.rules, pref)
  {
    hide Run, Passes, AtPref;
    if cs != [] {
      assert cs[|cs| - 1] in cs;
      AllPass(cs[..|cs| - 1], e, s, pref);
      OnePasses(cs[|cs| - 1], e, RunAll(cs[..|cs| - 1], e, s), pref);
    }
  }

  lemma {:induction false} ClearProvidersPass(ps: seq<Provider>)
    requires |ps| <= 10000
    ensures forall c :: c in ClearProviders(ps) ==> Passes(c.op, 32766)
  {
    if ps != [] {
      ClearProvidersPass(ps[..|ps| - 1]);
    }
  }

  lemma ProviderPasses(p: Provider, i: nat)
    requires i < 10000
    ensures forall c :: c in BuildProvider(p, i) ==> Passes(c.op, 32766)
  {
  }

  lemma {:induction false} BuildProvidersPass(ps: seq<Provider>)
    requires |ps| <= 10000
    ensures forall c :: c in BuildProviders(ps) ==> Passes(c.op, 32766)
  {
    hide BuildProvider, Passes;
    if ps != [] {
      BuildProvidersPass(ps[..|ps| - 1]);
      ProviderPasses(ps[|ps| - 1], |ps| - 1);
    }
  }

  lemma {:induction false} SweepsPass(pris: seq<nat>)
    requires 32766 !in pris
    ensures forall c :: c in Sweeps(pris) ==> Passes(c.op, 32766)
  {
    if pris != [] {
      SweepsPass(pris[..|pris| - 1]);
    }
  }

  lemma {:induction false} RtRulesPass(ps: seq<Provider>, rs: seq<RtRule>)
    requires forall r :: r in rs ==> r.priority != 32766
    ensures forall c :: c in BuildRtRules(ps, rs) ==> Passes(c.op, 32766)
  {
    hide TableOf;
    if rs != [] {
      assert rs[|rs| - 1] in rs;
      RtRulesPass(ps, rs[..|rs| - 1]);
    }
  }

  lemma {:induction false} HopsPass(ps: seq<Provider>)
    ensures forall c :: c in HopCmds(ps) || c in FallbackCmds(ps) ==> Passes(c.op, 32766)
  {
    if ps != [] {
      HopsPass(ps[..|ps| - 1]);
    }
  }

  lemma {:induction false} RoutesPass(rs: seq<Static>)
    ensures forall c :: c in ClearRoutes(rs) || c in BuildRoutes(rs) ==> Passes(c.op, 32766)
  {
    if rs != [] {
      RoutesPass(rs[..|rs| - 1]);
    }
  }

  /** Nothing but the defaults and a stop moves main's stock rule. */
  lemma MainPasses(cfg: Config)
    requires FewProviders(cfg) && forall r :: r in cfg.rtrules ==> r.priority != 32766
    ensures forall c :: c in ClearCmds(cfg) ==> Passes(c.op, 32766)
    ensures forall c :: c in BuildProviders(cfg.providers) + BuildRtRules(cfg.providers, cfg.rtrules) ==>
              Passes(c.op, 32766)
    ensures forall c :: c in HopCmds(cfg.providers) || c in FallbackCmds(cfg.providers) ==> Passes(c.op, 32766)
    ensures forall c :: c in BuildRoutes(cfg.routes) ==> Passes(c.op, 32766)
  {
    hide DefaultManaged, Balanced, HasFallback, ClearProviders, BuildProviders, Sweeps, BuildRtRules, HopCmds,
         FallbackCmds, ClearRoutes, BuildRoutes, Priorities;
    ClearProvidersPass(cfg.providers);
    BuildProvidersPass(cfg.providers);
    PrioritiesFrom(cfg.rtrules, 32766);
    SweepsPass(Priorities(cfg.rtrules));
    RtRulesPass(cfg.providers, cfg.rtrules);
    HopsPass(cfg.providers);
    RoutesPass(cfg.routes);
  }

  /** Main's stock rule stays where it is until a provider default stands in for
      main's, and is then taken out; a stop puts one back. */
  lemma MainRuleMoves(cfg: Config, e: Env, k: Kernel)
    requires Plain(cfg) && STOCK in k.rules && Tidy(cfg, k.rules) && !Swept(cfg, STOCK.pref)
    requires (forall r :: r in cfg.rtrules ==> r.priority != 32766) && AtPref(k.rules, 32766) in [[], [MAIN_RULE]]
    ensures AtPref(Rebuild(cfg, e, k).rules, 32766) == if Idle(cfg, e) then AtPref(k.rules, 32766) else []
    ensures AtPref(Stopped(cfg, e, k).rules, 32766) == AtPref(k.rules, 32766) + [MAIN_RULE]
  {
    hide ClearCmds, BuildProviders, BuildRtRules, HopCmds, FallbackCmds, BuildRoutes, RunAll, Swept, Tidy, AtPref,
         Passes, InstallCmds, UsableHops, AnyFallsBack, DefaultManaged, RestoreCmds, Routes, FewProviders, Rebuild,
         WeightedHops, FallbackTable, SameDefaults;
    var ps := cfg.providers;
    MainPasses(cfg);
    RebuildInstalls(cfg, e, k);
    ReadyState(cfg, e, k);
    var s0 := RunAll(ClearCmds(cfg), e, Boot(k));
    AllPass(ClearCmds(cfg), e, Boot(k), 32766);
    AllPass(BuildProviders(ps) + BuildRtRules(ps, cfg.rtrules), e, s0, 32766);
    var s1 := Boot(Steered(cfg, e, k).kernel);
    AllPass(HopCmds(ps), e, s1, 32766);
    AllPass(FallbackCmds(ps), e, RunAll(HopCmds(ps), e, s1), 32766);
    MainTaken(e, Ready(cfg, e, k));
    AllPass(BuildRoutes(cfg.routes), e, Installed(cfg, e, k), 32766);
    Restored(cfg, e, s0);
    AtPrefPlus(s0.kernel.rules, [MAIN_RULE], 32766);
    MainRuleAt();
  }

  lemma MainRuleAt()
    ensures AtPref([MAIN_RULE], 32766) == [MAIN_RULE]
  {
    assert [MAIN_RULE][1..] == [];
  }

  lemma MainTaken(e: Env, s: State)
    requires AtPref(s.kernel.rules, 32766) in [[], [MAIN_RULE]]
    ensures AtPref(RunAll(InstallCmds(), e, s).kernel.rules, 32766)
         == if s.have then [] else AtPref(s.kernel.rules, 32766)
  {
    hide AtPref, RunAll, Run, Routes;
    InstallSteps(e, s);
    var cs := InstallCmds();
    var s1 := Run(cs[0], e, s);
    var s2 := Run(cs[1], e, s1);
    var s3 := Run(cs[2], e, s2);
    var s4 := Run(cs[3], e, s3);
    var s5 := Run(cs[4], e, s4);
    OnePasses(cs[0], e, s, 32766);
    MainDeleted(e, s1);
    OnePasses(cs[2], e, s2, 32766);
    OnePasses(cs[3], e, s3, 32766);
    OnePasses(cs[4], e, s4, 32766);
    OnePasses(cs[5], e, s5, 32766);
    assert s1.have == s.have by { HaveKept(e, s); }
  }

  lemma HaveKept(e: Env, s: State)
    ensures Run(InstallCmds()[0], e, s).have == s.have
  {
  }

  lemma MainDeleted(e: Env, s: State)
    requires AtPref(s.kernel.rules, 32766) in [[], [MAIN_RULE]]
    ensures AtPref(Run(InstallCmds()[1], e, s).kernel.rules, 32766)
         == if s.have then [] else AtPref(s.kernel.rules, 32766)
  {
    hide AtPref;
    AtPrefDeleted(s.kernel.rules, Pattern(32766, None, None, None, None, Some(MAIN)), 32766);
    assert [MAIN_RULE][1..] == [];
  }
}
