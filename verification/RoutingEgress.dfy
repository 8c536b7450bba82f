/** Which default route an unclaimed packet takes after a rebuild. */
module RoutingEgress {
  import opened Wrappers
  import opened Routing
  import opened RoutingRebuild

  // ------------------------------------------------------------ route lookup

  /** The selectors a packet meets, and the destinations that cover it, most specific first. */
  datatype Packet = Packet(froms: set<string>, tos: set<string>, iif: string, marks: set<Mark>, dests: seq<string>)

  predicate Matches(r: Rule, p: Packet) {
    && (r.from.Some? ==> r.from.value in p.froms) && (r.to.Some? ==> r.to.value in p.tos)
    && (r.iif.Some? ==> r.iif.value == p.iif) && (r.mark.Some? ==> r.mark.value in p.marks)
  }

  predicate Covers(key: Key, p: Packet) {
    key.dest == "default" || key.dest in p.dests
  }

  /** A rule is passed over when its table has no route for the packet. */
  predicate Answers(k: Kernel, r: Rule, p: Packet) {
    Matches(r, p) && exists key :: key in Routes(k, r.table) && Covers(key, p)
  }

  /** The answering rule of lowest pref, the earliest of equals. */
  function Best(k: Kernel, rs: seq<Rule>, p: Packet): Option<Rule> {
    if rs == [] then None
    else
      var b, r := Best(k, rs[..|rs| - 1], p), rs[|rs| - 1];
      if Answers(k, r, p) && (b.None? || r.pref < b.value.pref) then Some(r) else b
  }

  function Rank(dests: seq<string>, dest: string): nat {
    if dests == [] || dests[0] == dest then 0 else 1 + Rank(dests[1..], dest)
  }

  /** The route of a table: most specific destination, then lowest metric. */
  predicate Picks(t: Table, p: Packet, key: Key) {
    && key in t && Covers(key, p)
    && forall o :: o in t && Covers(o, p) ==>
         Rank(p.dests, key.dest) < Rank(p.dests, o.dest)
         || (Rank(p.dests, key.dest) == Rank(p.dests, o.dest) && key.metric <= o.metric)
  }

  /** The packet is routed by table t over these nexthops. */
  ghost predicate Leaves(k: Kernel, p: Packet, t: nat, hops: seq<Hop>) {
    && Best(k, k.rules, p).Some? && Best(k, k.rules, p).value.table == t
    && exists key :: Picks(Routes(k, t), p, key) && Routes(k, t)[key] == hops
  }

  const STOCK := Rule(32767, None, None, None, None, DEFAULT_TABLE)

  /** Nothing but the default machinery routes the packet: no mark rule, source
      rule, rtrule or foreign rule answers, and no connected route covers it. */
  predicate Unclaimed(cfg: Config, k: Kernel, p: Packet) {
    && (forall r :: r in k.rules && Answers(k, r, p) ==>
          r == MAIN_FIRST || r == MAIN_RULE || r == STOCK || (r == BALANCE_RULE && Balanced(cfg)))
    && (forall key :: key in Routes(k, MAIN) && Covers(key, p) ==> key.dest == "default")
  }

  /** A routes file line leaves the default machinery alone. */
  predicate RouteApart(r: Static) {
    r.table != BALANCE && r.table != DEFAULT_TABLE && (r.table == MAIN ==> r.dest != "default")
  }

  /** Explicit gateways, own table numbers, routes file lines for other tables. */
  predicate Plain(cfg: Config) {
    && DefaultManaged(cfg) && FewProviders(cfg) && (forall r :: r in cfg.routes ==> RouteApart(r))
    && (forall p :: p in cfg.providers ==> !(250 <= p.number <= 255) && p.gateway != "default")
    && (forall i, j :: 0 <= i < j < |cfg.providers| ==> cfg.providers[i].number != cfg.providers[j].number)
  }

  /** The usable balanced nexthops, with their weights, in file order. */
  function UsableHops(ps: seq<Provider>, e: Env): seq<Hop> {
    if ps == [] then []
    else
      var p := ps[|ps| - 1];
      UsableHops(ps[..|ps| - 1], e)
      + if p.balance != 0 && Usable(e, p.name, p.iface) then [Hop(Some(p.gateway), Some(p.iface), p.balance)] else []
  }

  predicate FallsBack(p: Provider, e: Env) {
    p.fallback && Usable(e, p.name, p.iface)
  }

  /** The usable weighted fallbacks, with their weights, in file order. */
  function WeightedHops(ps: seq<Provider>, e: Env): seq<Hop> {
    if ps == [] then []
    else
      var p := ps[|ps| - 1];
      WeightedHops(ps[..|ps| - 1], e)
      + if FallsBack(p, e) && p.fallbackWeight != 0 then [Hop(Some(p.gateway), Some(p.iface), p.fallbackWeight)] else []
  }

  /** A usable fallback without a weight. */
  predicate SingleFallback(p: Provider, e: Env) {
    FallsBack(p, e) && p.fallbackWeight == 0
  }

  predicate AnyFallsBack(ps: seq<Provider>, e: Env) {
    exists p :: p in ps && FallsBack(p, e)
  }

  function Via(p: Provider): seq<Hop> {
    [Hop(Some(p.gateway), Some(p.iface), 1)]
  }

  // ------------------------------------------------------------------ framing

  lemma {:induction false} RunAllPlus(a: seq<Cmd>, b: seq<Cmd>, e: Env, s: State)
    ensures RunAll(a + b, e, s) == RunAll(b, e, RunAll(a, e, s))
  {
    hide Run;
    if b == [] {
      assert a + b == a;
    } else {
      assert (a + b)[..|a + b| - 1] == a + b[..|b| - 1];
      RunAllPlus(a, b[..|b| - 1], e, s);
    }
  }

  predicate Touches(op: Op, t: nat) {
    match op
    case Flush(u) => u == t
    case Replace(u, _, _) => u == t
    case ReplaceHops(u) => u == t
    case ReplaceFbHops(u) => u == t
    case DelRoute(u, _, _, _) => u == t
    case DelMainDefaults => t == MAIN
    case RestoreSaved => t == MAIN
    case _ => false
  }

  predicate Quiet(op: Op) {
    !op.ClearVars? && !op.PushHop? && !op.PushFbHop? && !op.SetHave?
  }

  /** The command cannot delete this rule. */
  predicate Spares(op: Op, r: Rule) {
    match op
    case DelAll(pref) => pref != r.pref
    case DelOne(pat) => !Fits(pat, r)
    case DelPinned(_, pat) => pat.pref != r.pref
    case _ => true
  }

  lemma OneTable(c: Cmd, e: Env, s: State, t: nat)
    requires !Touches(c.op, t)
    ensures Routes(Run(c, e, s).kernel, t) == Routes(s.kernel, t)
  {
    hide DeletePref, DeleteFirst, SourceRules, NoDefaults, HopIs, ReplaceAll, Holds;
  }

  lemma {:induction false} TableFrame(cs: seq<Cmd>, e: Env, s: State, t: nat)
    requires forall c :: c in cs ==> !Touches(c.op, t)
    ensures Routes(RunAll(cs, e, s).kernel, t) == Routes(s.kernel, t)
  {
    hide Run, Touches, Routes;
    if cs != [] {
      assert cs[|cs| - 1] in cs;
      TableFrame(cs[..|cs| - 1], e, s, t);
      OneTable(cs[|cs| - 1], e, RunAll(cs[..|cs| - 1], e, s), t);
    }
  }

  lemma {:induction false} QuietFrame(cs: seq<Cmd>, e: Env, s: State)
    requires forall c :: c in cs ==> Quiet(c.op)
    ensures RunAll(cs, e, s) == s.(kernel := RunAll(cs, e, s).kernel)
  {
    hide DeletePref, DeleteFirst, SourceRules, NoDefaults, HopIs, ReplaceAll, Holds, Routes;
    if cs != [] {
      assert cs[|cs| - 1] in cs;
      QuietFrame(cs[..|cs| - 1], e, s);
    }
  }

  lemma {:induction false} DeletePrefSpares(rs: seq<Rule>, pref: nat, r: Rule)
    requires r in rs && r.pref != pref
    ensures r in DeletePref(rs, pref)
  {
    if r != rs[0] {
      DeletePrefSpares(rs[1..], pref, r);
    }
  }

  lemma {:induction false} DeleteFirstSpares(rs: seq<Rule>, pat: Pattern, r: Rule)
    requires r in rs && !Fits(pat, r)
    ensures r in DeleteFirst(rs, pat)
  {
    hide Fits;
    if r != rs[0] && !Fits(pat, rs[0]) {
      DeleteFirstSpares(rs[1..], pat, r);
    }
  }

  lemma OneSpares(c: Cmd, e: Env, s: State, r: Rule)
    requires r in s.kernel.rules && Spares(c.op, r)
    ensures r in Run(c, e, s).kernel.rules
  {
    hide SourceRules, NoDefaults, HopIs, ReplaceAll, Holds, Routes, DeletePref, DeleteFirst;
    match c.op
    case DelAll(pref) => DeletePrefSpares(s.kernel.rules, pref, r);
    case DelOne(pat) => DeleteFirstSpares(s.kernel.rules, pat, r);
    case DelPinned(i, pat) =>
      if Addresses(e, i) != [] { DeleteFirstSpares(s.kernel.rules, pat.(from := Some(Addresses(e, i)[0])), r); }
    case _ =>
  }

  lemma {:induction false} AllSpare(cs: seq<Cmd>, e: Env, s: State, r: Rule)
    requires r in s.kernel.rules && forall c :: c in cs ==> Spares(c.op, r)
    ensures r in RunAll(cs, e, s).kernel.rules
  {
    hide Run, Spares;
    if cs != [] {
      assert cs[|cs| - 1] in cs;
      AllSpare(cs[..|cs| - 1], e, s, r);
      OneSpares(cs[|cs| - 1], e, RunAll(cs[..|cs| - 1], e, s), r);
    }
  }

  /** Main's default routes are the same in both. */
  ghost predicate SameDefaults(a: Kernel, b: Kernel) {
    forall m ::
      (Key("default", m) in Routes(a, MAIN) <==> Key("default", m) in Routes(b, MAIN))
      && (Key("default", m) in Routes(a, MAIN) ==>
          Routes(a, MAIN)[Key("default", m)] == Routes(b, MAIN)[Key("default", m)])
  }

  predicate KeepsDefaults(op: Op) {
    !Touches(op, MAIN) || (op.Replace? && op.key.dest != "default") || (op.DelRoute? && op.dest != "default")
  }

  lemma OneDefaults(c: Cmd, e: Env, s: State)
    requires KeepsDefaults(c.op)
    ensures SameDefaults(s.kernel, Run(c, e, s).kernel)
  {
    hide DeletePref, DeleteFirst, SourceRules, NoDefaults, HopIs, ReplaceAll, Holds, Routes;
    if !Touches(c.op, MAIN) {
      OneTable(c, e, s, MAIN);
    } else {
      OneReplace(c, e, s);
    }
  }

  lemma OneReplace(c: Cmd, e: Env, s: State)
    requires (c.op.Replace? && c.op.key.dest != "default") || (c.op.DelRoute? && c.op.dest != "default")
    requires c.op.table == MAIN
    ensures SameDefaults(s.kernel, Run(c, e, s).kernel)
  {
    hide Holds, HopIs;
  }

  lemma {:induction false} DefaultsFrame(cs: seq<Cmd>, e: Env, s: State)
    requires forall c :: c in cs ==> KeepsDefaults(c.op)
    ensures SameDefaults(s.kernel, RunAll(cs, e, s).kernel)
  {
    hide Run, KeepsDefaults, Routes;
    if cs != [] {
      assert cs[|cs| - 1] in cs;
      DefaultsFrame(cs[..|cs| - 1], e, s);
      OneDefaults(cs[|cs| - 1], e, RunAll(cs[..|cs| - 1], e, s));
    }
  }

  // ------------------------------------------------- the halves, command by command

  predicate Harmless(op: Op) {
    && Quiet(op) && Spares(op, STOCK) && KeepsDefaults(op)
    && !Touches(op, BALANCE) && !Touches(op, DEFAULT_TABLE)
  }

  lemma {:induction false} ClearProvidersHarmless(ps: seq<Provider>)
    requires forall p :: p in ps ==> !(250 <= p.number <= 255)
    ensures forall c :: c in ClearProviders(ps) ==> Harmless(c.op)
  {
    if ps != [] {
      assert ps[|ps| - 1] in ps;
      ClearProvidersHarmless(ps[..|ps| - 1]);
    }
  }

  lemma {:induction false} RoutesHarmless(rs: seq<Static>)
    requires forall r :: r in rs ==> RouteApart(r)
    ensures forall c :: c in ClearRoutes(rs) ==> Harmless(c.op)
    ensures forall c :: c in BuildRoutes(rs) ==> Harmless(c.op)
  {
    if rs != [] {
      assert rs[|rs| - 1] in rs;
      RoutesHarmless(rs[..|rs| - 1]);
    }
  }

  lemma {:induction false} SweepsHarmless(ps: seq<nat>)
    requires STOCK.pref !in ps
    ensures forall c :: c in Sweeps(ps) ==> Harmless(c.op)
  {
    if ps != [] {
      SweepsHarmless(ps[..|ps| - 1]);
    }
  }

  lemma {:induction false} PrioritiesFrom(rs: seq<RtRule>, pref: nat)
    requires forall r :: r in rs ==> r.priority != pref
    ensures pref !in Priorities(rs)
  {
    if rs != [] {
      assert rs[|rs| - 1] in rs;
      PrioritiesFrom(rs[..|rs| - 1], pref);
    }
  }

  lemma ProviderHarmless(p: Provider, i: nat)
    requires !(250 <= p.number <= 255) && p.gateway != "default"
    ensures forall c :: c in BuildProvider(p, i) ==> Harmless(c.op)
  {
  }

  lemma {:induction false} ProvidersHarmless(ps: seq<Provider>)
    requires forall p :: p in ps ==> !(250 <= p.number <= 255) && p.gateway != "default"
    ensures forall c :: c in BuildProviders(ps) ==> Harmless(c.op)
  {
    hide Harmless, BuildProvider;
    if ps != [] {
      assert ps[|ps| - 1] in ps;
      ProvidersHarmless(ps[..|ps| - 1]);
      ProviderHarmless(ps[|ps| - 1], |ps| - 1);
    }
  }

  lemma {:induction false} RtRulesHarmless(ps: seq<Provider>, rs: seq<RtRule>)
    requires forall r :: r in rs ==> r.priority != STOCK.pref
    ensures forall c :: c in BuildRtRules(ps, rs) ==> Harmless(c.op)
  {
    hide TableOf;
    if rs != [] {
      assert rs[|rs| - 1] in rs;
      RtRulesHarmless(ps, rs[..|rs| - 1]);
    }
  }

  lemma {:induction false} HopsRun(ps: seq<Provider>, e: Env, s: State)
    requires s.nexthops == [] && !s.have
    ensures RunAll(HopCmds(ps), e, s) == s.(nexthops := UsableHops(ps, e), have := UsableHops(ps, e) != [])
  {
    hide Usable;
    if ps != [] {
      var p := ps[|ps| - 1];
      HopsRun(ps[..|ps| - 1], e, s);
      if p.balance != 0 {
        var two := [Cmd(IfUsable(p.name, p.iface), PushHop(BalanceHop(p))), Cmd(IfUsable(p.name, p.iface), SetHave)];
        RunAllPlus(HopCmds(ps[..|ps| - 1]), two, e, s);
        TwoRun(two, e, RunAll(HopCmds(ps[..|ps| - 1]), e, s));
      } else {
        assert HopCmds(ps) == HopCmds(ps[..|ps| - 1]) && UsableHops(ps, e) == UsableHops(ps[..|ps| - 1], e);
      }
      assert !Usable(e, p.name, p.iface) ==> UsableHops(ps, e) == UsableHops(ps[..|ps| - 1], e);
    }
  }

  lemma TwoRun(cs: seq<Cmd>, e: Env, s: State)
    requires |cs| == 2
    ensures RunAll(cs, e, s) == Run(cs[1], e, Run(cs[0], e, s))
  {
    hide Run;
    assert cs[..1][..0] == [] && RunAll(cs[..1][..0], e, s) == s;
    assert cs[..1][0] == cs[0];
  }

  /** Table 253 after the metric fallbacks: one default per usable fallback. */
  function FallbackTable(ps: seq<Provider>, e: Env, t: Table): Table {
    if ps == [] then t
    else
      var p, rest := ps[|ps| - 1], FallbackTable(ps[..|ps| - 1], e, t);
      if SingleFallback(p, e) then rest[Key("default", p.number) := Via(p)] else rest
  }

  lemma {:induction false} FallbacksRun(ps: seq<Provider>, e: Env, s: State)
    requires s.fbhops == []
    ensures var s' := RunAll(FallbackCmds(ps), e, s);
            && s'.nexthops == s.nexthops && s'.fbhops == WeightedHops(ps, e)
            && s'.have == (s.have || AnyFallsBack(ps, e)) && s'.kernel.rules == s.kernel.rules
            && Routes(s'.kernel, DEFAULT_TABLE) == FallbackTable(ps, e, Routes(s.kernel, DEFAULT_TABLE))
            && Routes(s'.kernel, BALANCE) == Routes(s.kernel, BALANCE)
                && Routes(s'.kernel, MAIN) == Routes(s.kernel, MAIN)
  {
    hide Usable, AnyFallsBack;
    if ps == [] {
      NoneFallsBack(e);
    } else {
      var p, rest := ps[|ps| - 1], ps[..|ps| - 1];
      assert p in ps;
      FallbacksRun(rest, e, s);
      AnyOne(ps, e);
      if p.fallback {
        var two := [Cmd(IfUsable(p.name, p.iface), FallbackOp(p)), Cmd(IfUsable(p.name, p.iface), SetHave)];
        RunAllPlus(FallbackCmds(rest), two, e, s);
        OneFallback(p, e, RunAll(FallbackCmds(rest), e, s));
      } else {
        assert FallbackCmds(ps) == FallbackCmds(rest);
      }
    }
  }

  lemma OneFallback(p: Provider, e: Env, s: State)
    ensures var two := [Cmd(IfUsable(p.name, p.iface), FallbackOp(p)), Cmd(IfUsable(p.name, p.iface), SetHave)];
            var s' := RunAll(two, e, s);
            if !Usable(e, p.name, p.iface) then s' == s
            else if p.fallbackWeight != 0 then
              s' == s.(fbhops := s.fbhops + [Hop(Some(p.gateway), Some(p.iface), p.fallbackWeight)], have := true)
            else s' == WithTable(s, DEFAULT_TABLE,
                Routes(s.kernel, DEFAULT_TABLE)[Key("default", p.number) := Via(p)]).(have := true)
  {
    hide Usable, Routes;
    TwoRun([Cmd(IfUsable(p.name, p.iface), FallbackOp(p)), Cmd(IfUsable(p.name, p.iface), SetHave)], e, s);
  }

  lemma NoneFallsBack(e: Env)
    ensures !AnyFallsBack([], e)
  {
  }

  lemma AnyOne(ps: seq<Provider>, e: Env)
    requires ps != []
    ensures AnyFallsBack(ps, e) == (AnyFallsBack(ps[..|ps| - 1], e) || FallsBack(ps[|ps| - 1], e))
  {
    hide FallsBack;
    forall p | p in ps
      ensures p in ps[..|ps| - 1] || p == ps[|ps| - 1]
    {
    }
    if FallsBack(ps[|ps| - 1], e) {
      assert ps[|ps| - 1] in ps;
    }
  }

  lemma {:induction false} FallbackTableHas(ps: seq<Provider>, e: Env)
    requires forall i, j :: 0 <= i < j < |ps| ==> ps[i].number != ps[j].number
    ensures forall p :: p in ps && SingleFallback(p, e) ==>
              Key("default", p.number) in FallbackTable(ps, e, map[])
                  && FallbackTable(ps, e, map[])[Key("default", p.number)] == Via(p)
    ensures forall key :: key in FallbackTable(ps, e, map[]) ==>
              key.dest == "default" && exists p :: p in ps && SingleFallback(p, e) && key.metric == p.number
  {
    hide SingleFallback, Via;
    if ps != [] {
      var n := |ps| - 1;
      FallbackTableHas(ps[..n], e);
      forall p | p in ps[..n]
        ensures p.number != ps[n].number
      {
        var i :| 0 <= i < n && ps[i] == p;
      }
      assert ps[n] in ps;
    }
  }

  // --------------------------------------------------------------- the outcome

  lemma DefaultsSpare(cfg: Config)
    ensures forall c :: c in ClearDefaults(cfg) ==> Spares(c.op, STOCK) && KeepsDefaults(c.op)
  {
    hide Balanced, HasFallback;
  }

  lemma ClearSpares(cfg: Config)
    requires Plain(cfg) && !Swept(cfg, STOCK.pref)
    ensures forall c :: c in ClearCmds(cfg) ==> Spares(c.op, STOCK) && KeepsDefaults(c.op)
  {
    hide DefaultManaged, ClearProviders, ClearDefaults, ClearRoutes, Sweeps, Priorities, RouteApart, FewProviders;
    ClearProvidersHarmless(cfg.providers);
    RoutesHarmless(cfg.routes);
    PrioritiesFrom(cfg.rtrules, STOCK.pref);
    SweepsHarmless(Priorities(cfg.rtrules));
    DefaultsSpare(cfg);
  }

  lemma RulesHarmless(cfg: Config)
    requires Plain(cfg) && !Swept(cfg, STOCK.pref)
    ensures forall c :: c in BuildProviders(cfg.providers) + BuildRtRules(cfg.providers, cfg.rtrules) ==> Harmless(c.op)
  {
    hide DefaultManaged, BuildProviders, BuildRtRules, Harmless;
    ProvidersHarmless(cfg.providers);
    RtRulesHarmless(cfg.providers, cfg.rtrules);
  }

  /** The state once the rules and provider tables are in place. */
  function Steered(cfg: Config, e: Env, k: Kernel): State {
    RunAll(BuildProviders(cfg.providers) + BuildRtRules(cfg.providers, cfg.rtrules), e,
        RunAll(ClearCmds(cfg), e, Boot(k)))
  }

  /** The state in which the defaults are about to be installed. */
  function Ready(cfg: Config, e: Env, k: Kernel): State {
    RunAll(FallbackCmds(cfg.providers), e, RunAll(HopCmds(cfg.providers), e, Boot(Steered(cfg, e, k).kernel)))
  }

  lemma RunVars(e: Env, s: State)
    ensures RunAll([Cmd(Always, ClearVars)], e, s) == Boot(s.kernel)
  {
    var cs := [Cmd(Always, ClearVars)];
    assert cs[..0] == [] && RunAll(cs[..0], e, s) == s;
  }

  /** The state once the defaults are installed; the routes file comes last. */
  function Installed(cfg: Config, e: Env, k: Kernel): State {
    RunAll(InstallCmds(), e, Ready(cfg, e, k))
  }

  lemma RebuildInstalls(cfg: Config, e: Env, k: Kernel)
    requires Plain(cfg)
    ensures Active(cfg) && Rebuild(cfg, e, k) == RunAll(BuildRoutes(cfg.routes), e, Installed(cfg, e, k)).kernel
  {
    hide BuildProviders, BuildRtRules, HopCmds, FallbackCmds, InstallCmds, ClearCmds, BuildRoutes, RunAll, RouteApart;
    var ps, s := cfg.providers, RunAll(ClearCmds(cfg), e, Boot(k));
    var a, v, h, f := BuildProviders(ps) + BuildRtRules(ps, cfg.rtrules), [Cmd(Always, ClearVars)], HopCmds(ps),
        FallbackCmds(ps);
    assert BuildCmds(cfg) == a + (v + h + f + InstallCmds()) + BuildRoutes(cfg.routes);
    RunAllPlus(a + (v + h + f + InstallCmds()), BuildRoutes(cfg.routes), e, s);
    RunAllPlus(a, v + h + f + InstallCmds(), e, s);
    RunAllPlus(v + h + f, InstallCmds(), e, RunAll(a, e, s));
    RunAllPlus(v + h, f, e, RunAll(a, e, s));
    RunAllPlus(v, h, e, RunAll(a, e, s));
    RunVars(e, RunAll(a, e, s));
  }

  lemma SteeredState(cfg: Config, e: Env, k: Kernel)
    requires Plain(cfg) && Tidy(cfg, k.rules) && STOCK in k.rules && !Swept(cfg, STOCK.pref)
    ensures var s := Steered(cfg, e, k);
            && STOCK in s.kernel.rules && SameDefaults(k, s.kernel)
            && (Balanced(cfg) ==> Routes(s.kernel, BALANCE) == map[])
            && (HasFallback(cfg) ==> Routes(s.kernel, DEFAULT_TABLE) == map[])
  {
    hide Swept, Balanced, HasFallback, Routes, BuildProviders, BuildRtRules, ClearCmds, RunAll, Tidy, Spares,
         KeepsDefaults, Touches;
    var s0 := RunAll(ClearCmds(cfg), e, Boot(k));
    var a := BuildProviders(cfg.providers) + BuildRtRules(cfg.providers, cfg.rtrules);
    ClearSpares(cfg);
    AllSpare(ClearCmds(cfg), e, Boot(k), STOCK);
    DefaultsFrame(ClearCmds(cfg), e, Boot(k));
    RebuildInstalls(cfg, e, k);
    ClearErases(cfg, e, k);
    RulesHarmless(cfg);
    AllSpare(a, e, s0, STOCK);
    DefaultsFrame(a, e, s0);
    TableFrame(a, e, s0, BALANCE);
    TableFrame(a, e, s0, DEFAULT_TABLE);
  }

  lemma ReadyState(cfg: Config, e: Env, k: Kernel)
    requires Plain(cfg) && Tidy(cfg, k.rules) && STOCK in k.rules && !Swept(cfg, STOCK.pref)
    ensures var s := Ready(cfg, e, k);
            && STOCK in s.kernel.rules && SameDefaults(k, s.kernel)
            && s.nexthops == UsableHops(cfg.providers, e) && s.fbhops == WeightedHops(cfg.providers, e)
            && s.have == (UsableHops(cfg.providers, e) != [] || AnyFallsBack(cfg.providers, e))
            && (Balanced(cfg) ==> Routes(s.kernel, BALANCE) == map[])
            && (HasFallback(cfg) ==> Routes(s.kernel, DEFAULT_TABLE) == FallbackTable(cfg.providers, e, map[]))
  {
    hide Swept, Balanced, HasFallback, Routes, HopCmds, FallbackCmds, UsableHops, AnyFallsBack, FallbackTable, Tidy,
         Steered, RunAll;
    SteeredState(cfg, e, k);
    var s := Boot(Steered(cfg, e, k).kernel);
    HopsRun(cfg.providers, e, s);
    FallbacksRun(cfg.providers, e, RunAll(HopCmds(cfg.providers), e, s));
  }

  lemma InstallSteps(e: Env, s: State)
    ensures var cs := InstallCmds();
            RunAll(cs, e, s) == Run(cs[5], e,
                Run(cs[4], e, Run(cs[3], e, Run(cs[2], e, Run(cs[1], e, Run(cs[0], e, s))))))
  {
    hide Run;
    var cs := InstallCmds();
    assert cs == cs[..2] + (cs[2..4] + cs[4..6]);
    RunAllPlus(cs[..2], cs[2..4] + cs[4..6], e, s);
    RunAllPlus(cs[2..4], cs[4..6], e, RunAll(cs[..2], e, s));
    TwoRun(cs[..2], e, s);
    TwoRun(cs[2..4], e, RunAll(cs[..2], e, s));
    TwoRun(cs[4..6], e, RunAll(cs[2..4], e, RunAll(cs[..2], e, s)));
  }

  /** The installing commands, from any state. */
  lemma InstalledTables(e: Env, s: State)
    ensures var k := RunAll(InstallCmds(), e, s).kernel;
            && Routes(k, DEFAULT_TABLE) ==
               (if s.fbhops == [] then Routes(s.kernel, DEFAULT_TABLE)
                else Routes(s.kernel, DEFAULT_TABLE)[Key("default", 0) := s.fbhops])
            && Routes(k, MAIN) == (if s.have then NoDefaults(Routes(s.kernel, MAIN)) else Routes(s.kernel, MAIN))
            && Routes(k, BALANCE) ==
               if s.nexthops == [] then Routes(s.kernel, BALANCE)
               else Routes(s.kernel, BALANCE)[Key("default", 0) := s.nexthops]
  {
    hide DeleteFirst, NoDefaults, RunAll, Run, Routes;
    InstallSteps(e, s);
    var cs := InstallCmds();
    var s1 := Run(cs[0], e, s);
    var s2 := Run(cs[1], e, s1);
    var s3 := Run(cs[2], e, s2);
    var s4 := Run(cs[3], e, s3);
    var s5 := Run(cs[4], e, s4);
    InstallStep(e, s, s1, 0);
    InstallStep(e, s1, s2, 1);
    InstallStep(e, s2, s3, 2);
    InstallStep(e, s3, s4, 3);
    InstallStep(e, s4, s5, 4);
    InstallStep(e, s5, Run(cs[5], e, s5), 5);
  }

  /** What one of them does to the variables and the three tables. */
  lemma InstallStep(e: Env, s: State, s': State, i: nat)
    requires i < 6 && s' == Run(InstallCmds()[i], e, s)
    ensures s'.nexthops == s.nexthops && s'.fbhops == s.fbhops && s'.have == s.have
    ensures Routes(s'.kernel, MAIN) ==
            if i == 2 && s.have then NoDefaults(Routes(s.kernel, MAIN)) else Routes(s.kernel, MAIN)
    ensures Routes(s'.kernel, BALANCE) ==
            if i == 3 && s.nexthops != [] then Routes(s.kernel, BALANCE)[Key("default", 0) := s.nexthops]
            else Routes(s.kernel, BALANCE)
    ensures Routes(s'.kernel, DEFAULT_TABLE) ==
            if i == 5 && s.fbhops != [] then Routes(s.kernel, DEFAULT_TABLE)[Key("default", 0) := s.fbhops]
            else Routes(s.kernel, DEFAULT_TABLE)
  {
    hide DeleteFirst, NoDefaults, Fits;
  }

  lemma InstalledRules(e: Env, s: State)
    requires STOCK in s.kernel.rules
    ensures var k := RunAll(InstallCmds(), e, s).kernel;
            STOCK in k.rules && MAIN_FIRST in k.rules && (s.nexthops != [] ==> BALANCE_RULE in k.rules)
  {
    hide DeleteFirst, NoDefaults, RunAll, Routes;
    InstallSteps(e, s);
    var rs, pat := s.kernel.rules + [MAIN_FIRST], Pattern(32766, None, None, None, None, Some(MAIN));
    DeleteFirstSpares(rs, pat, STOCK);
    DeleteFirstSpares(rs, pat, MAIN_FIRST);
  }

  lemma {:induction false} BestIs(k: Kernel, rs: seq<Rule>, p: Packet, r: Rule)
    requires r in rs && Answers(k, r, p)
    requires forall x :: x in rs && Answers(k, x, p) ==> x == r || x.pref > r.pref
    ensures Best(k, rs, p) == Some(r)
  {
    hide Answers;
    var n := |rs| - 1;
    if r in rs[..n] {
      BestIs(k, rs[..n], p, r);
      assert rs[n] in rs;
    } else {
      BestIn(k, rs[..n], p);
    }
  }

  lemma {:induction false} BestIn(k: Kernel, rs: seq<Rule>, p: Packet)
    ensures Best(k, rs, p).Some? ==> Best(k, rs, p).value in rs && Answers(k, Best(k, rs, p).value, p)
  {
    hide Answers;
    if rs != [] {
      BestIn(k, rs[..|rs| - 1], p);
    }
  }

  lemma {:induction false} HopsBalanced(cfg: Config, ps: seq<Provider>, e: Env)
    requires forall p :: p in ps ==> p in cfg.providers
    ensures UsableHops(ps, e) != [] ==> Balanced(cfg)
  {
    hide Usable;
    if ps != [] {
      var p := ps[|ps| - 1];
      assert p in ps;
      HopsBalanced(cfg, ps[..|ps| - 1], e);
      if p.balance != 0 {
        var i :| 0 <= i < |cfg.providers| && cfg.providers[i] == p;
      }
    }
  }

  /** Main answers for an unclaimed packet only with a default route. */
  lemma MainSilent(cfg: Config, k: Kernel, p: Packet)
    requires Unclaimed(cfg, k, p) && NoMainDefault(k)
    ensures !Answers(k, MAIN_FIRST, p) && !Answers(k, MAIN_RULE, p)
  {
    forall key | key in Routes(k, MAIN)
      ensures !Covers(key, p)
    {
      assert key == Key(key.dest, key.metric);
    }
  }

  ghost predicate NoMainDefault(k: Kernel) {
    forall m :: Key("default", m) !in Routes(k, MAIN)
  }

  /** Nothing usable to route by default. */
  predicate Idle(cfg: Config, e: Env) {
    UsableHops(cfg.providers, e) == [] && !AnyFallsBack(cfg.providers, e)
  }

  /** What a rebuild installs by way of defaults. */
  lemma Rebuilt(cfg: Config, e: Env, k: Kernel)
    requires Plain(cfg) && Tidy(cfg, k.rules) && STOCK in k.rules && !Swept(cfg, STOCK.pref)
    ensures var k', hops, weighted := Rebuild(cfg, e, k), UsableHops(cfg.providers, e), WeightedHops(cfg.providers, e);
      && STOCK in k'.rules && MAIN_FIRST in k'.rules && (hops != [] ==> BALANCE_RULE in k'.rules)
      && (if Idle(cfg, e) then SameDefaults(k, k') else NoMainDefault(k'))
      && (Balanced(cfg) ==> Routes(k', BALANCE) == if hops == [] then map[] else map[Key("default", 0) := hops])
      && (HasFallback(cfg) ==>
          Routes(k', DEFAULT_TABLE) ==
            if weighted == [] then FallbackTable(cfg.providers, e, map[])
            else FallbackTable(cfg.providers, e, map[])[Key("default", 0) := weighted])
  {
    hide Swept, Tidy, Ready, UsableHops, AnyFallsBack, WeightedHops, FallbackTable, Balanced, HasFallback, InstallCmds,
         Rebuild, DefaultManaged, FewProviders, BuildRoutes, RunAll, Routes, RouteApart, Touches, Spares, KeepsDefaults;
    ReadyState(cfg, e, k);
    RebuildInstalls(cfg, e, k);
    InstalledTables(e, Ready(cfg, e, k));
    InstalledRules(e, Ready(cfg, e, k));
    var s, cs := Installed(cfg, e, k), BuildRoutes(cfg.routes);
    RoutesHarmless(cfg.routes);
    RoutesKeepRules(cfg.routes, e, s);
    TableFrame(cs, e, s, BALANCE);
    TableFrame(cs, e, s, DEFAULT_TABLE);
    DefaultsFrame(cs, e, s);
    InstalledDefaults(e, Ready(cfg, e, k));
    NoneStays(s.kernel, RunAll(cs, e, s).kernel);
    HopsBalanced(cfg, cfg.providers, e);
  }

  lemma InstalledDefaults(e: Env, s: State)
    ensures var k := RunAll(InstallCmds(), e, s).kernel;
            if s.have then NoMainDefault(k) else SameDefaults(s.kernel, k)
  {
    hide InstallCmds, RunAll, Routes;
    InstalledTables(e, s);
  }

  lemma NoneStays(a: Kernel, b: Kernel)
    ensures NoMainDefault(a) && SameDefaults(a, b) ==> NoMainDefault(b)
  {
    hide Routes;
  }

  lemma {:induction false} RoutesKeepRules(rs: seq<Static>, e: Env, s: State)
    ensures RunAll(BuildRoutes(rs), e, s).kernel.rules == s.kernel.rules
  {
    hide Routes;
    if rs != [] {
      RoutesKeepRules(rs[..|rs| - 1], e, s);
      var pre, r := BuildRoutes(rs[..|rs| - 1]), rs[|rs| - 1];
      var c := Cmd(Always, Replace(r.table, Key(r.dest, 0), [Hop(r.gateway, r.device, 1)]));
      assert BuildRoutes(rs) == pre + [c];
      RunAllPlus(pre, [c], e, s);
      assert [c][..0] == [] && RunAll([c][..0], e, RunAll(pre, e, s)) == RunAll(pre, e, s);
    }
  }

  /** With usable balanced providers, an unclaimed packet leaves by table 250
      over exactly their nexthops and weights. */
  lemma ByBalance(cfg: Config, e: Env, k: Kernel, p: Packet)
    requires Plain(cfg) && Tidy(cfg, k.rules) && STOCK in k.rules && !Swept(cfg, STOCK.pref)
    requires Unclaimed(cfg, Rebuild(cfg, e, k), p) && UsableHops(cfg.providers, e) != []
    ensures Leaves(Rebuild(cfg, e, k), p, BALANCE, UsableHops(cfg.providers, e))
    ensures Routes(Rebuild(cfg, e, k), BALANCE) == map[Key("default", 0) := UsableHops(cfg.providers, e)]
  {
    hide Swept, Tidy, Plain, UsableHops, WeightedHops, AnyFallsBack, FallbackTable, Balanced, Rebuild;
    Rebuilt(cfg, e, k);
    HopsBalanced(cfg, cfg.providers, e);
    var k' := Rebuild(cfg, e, k);
    MainSilent(cfg, k', p);
    assert Key("default", 0) in Routes(k', BALANCE);
    BestIs(k', k'.rules, p, BALANCE_RULE);
    assert Picks(Routes(k', BALANCE), p, Key("default", 0));
  }

  /** Without one, it leaves by table 253: over the usable weighted fallbacks if
      there are any. */
  lemma ByWeighted(cfg: Config, e: Env, k: Kernel, p: Packet)
    requires Plain(cfg) && Tidy(cfg, k.rules) && STOCK in k.rules && !Swept(cfg, STOCK.pref)
    requires Unclaimed(cfg, Rebuild(cfg, e, k), p) && UsableHops(cfg.providers, e) == []
    requires WeightedHops(cfg.providers, e) != []
    ensures Leaves(Rebuild(cfg, e, k), p, DEFAULT_TABLE, WeightedHops(cfg.providers, e))
  {
    hide Swept, Tidy, UsableHops, WeightedHops, AnyFallsBack, FallbackTable, Balanced, HasFallback, Rebuild,
         DefaultManaged, FewProviders;
    WeightedConfigured(cfg, cfg.providers, e);
    Rebuilt(cfg, e, k);
    var k' := Rebuild(cfg, e, k);
    MainSilent(cfg, k', p);
    FallbackTableHas(cfg.providers, e);
    var t, key := Routes(k', DEFAULT_TABLE), Key("default", 0);
    assert key in t && t[key] == WeightedHops(cfg.providers, e);
    BestIs(k', k'.rules, p, STOCK);
    assert Picks(t, p, key);
  }

  lemma {:induction false} WeightedConfigured(cfg: Config, ps: seq<Provider>, e: Env)
    requires forall p :: p in ps ==> p in cfg.providers
    ensures WeightedHops(ps, e) != [] ==> HasFallback(cfg) && AnyFallsBack(ps, e)
  {
    hide Usable;
    if ps != [] {
      var p := ps[|ps| - 1];
      assert p in ps;
      WeightedConfigured(cfg, ps[..|ps| - 1], e);
      if FallsBack(p, e) {
        FallbackConfigured(cfg, e, p);
      }
      AnyOne(ps, e);
    }
  }

  predicate LeastFallback(ps: seq<Provider>, e: Env, f: Provider) {
    f in ps && SingleFallback(f, e) && forall q :: q in ps && SingleFallback(q, e) ==> f.number <= q.number
  }

  /** Else over the usable fallback of lowest number. */
  lemma ByFallback(cfg: Config, e: Env, k: Kernel, p: Packet, f: Provider)
    requires Plain(cfg) && Tidy(cfg, k.rules) && STOCK in k.rules && !Swept(cfg, STOCK.pref)
    requires Unclaimed(cfg, Rebuild(cfg, e, k), p) && UsableHops(cfg.providers, e) == []
    requires WeightedHops(cfg.providers, e) == [] && LeastFallback(cfg.providers, e, f)
    ensures Leaves(Rebuild(cfg, e, k), p, DEFAULT_TABLE, Via(f))
  {
    hide Swept, Tidy, UsableHops, WeightedHops, FallbackTable, Balanced, HasFallback, Rebuild, FallsBack,
         DefaultManaged, FewProviders;
    var ps := cfg.providers;
    FallbackConfigured(cfg, e, f);
    Rebuilt(cfg, e, k);
    var k' := Rebuild(cfg, e, k);
    MainSilent(cfg, k', p);
    FallbackTableHas(ps, e);
    var t, key := Routes(k', DEFAULT_TABLE), Key("default", f.number);
    assert key in t && t[key] == Via(f);
    BestIs(k', k'.rules, p, STOCK);
    assert Picks(t, p, key);
  }

  lemma FallbackConfigured(cfg: Config, e: Env, f: Provider)
    requires f in cfg.providers && FallsBack(f, e)
    ensures HasFallback(cfg)
  {
    var i :| 0 <= i < |cfg.providers| && cfg.providers[i] == f;
  }

  lemma {:induction false} LeastExists(ps: seq<Provider>, e: Env)
    requires AnyFallsBack(ps, e)
    ensures WeightedHops(ps, e) != [] || exists f :: LeastFallback(ps, e, f)
  {
    hide FallsBack;
    if ps != [] {
      var n := |ps| - 1;
      AnyOne(ps, e);
      if exists f :: LeastFallback(ps[..n], e, f) {
        var f :| LeastFallback(ps[..n], e, f);
        var g := if SingleFallback(ps[n], e) && ps[n].number < f.number then ps[n] else f;
        assert LeastFallback(ps, e, g);
      } else if AnyFallsBack(ps[..n], e) {
        LeastExists(ps[..n], e);
      } else if ps[n].fallbackWeight == 0 {
        NoSingle(ps[..n], e);
        assert LeastFallback(ps, e, ps[n]);
      }
    }
  }

  lemma NoSingle(ps: seq<Provider>, e: Env)
    requires !AnyFallsBack(ps, e)
    ensures forall p :: p in ps ==> !SingleFallback(p, e)
  {
    hide FallsBack;
  }

  /** Main has this default route and none of lower metric. */
  predicate LeastDefault(k: Kernel, m: nat) {
    Key("default", m) in Routes(k, MAIN) && forall o :: Key("default", o) in Routes(k, MAIN) ==> m <= o
  }

  /** With none usable either, main's default routes stay as they were, and the
      packet takes the one of lowest metric if there are any. */
  lemma ByMain(cfg: Config, e: Env, k: Kernel, p: Packet)
    requires Plain(cfg) && Tidy(cfg, k.rules) && STOCK in k.rules && !Swept(cfg, STOCK.pref)
    requires Unclaimed(cfg, Rebuild(cfg, e, k), p)
    requires UsableHops(cfg.providers, e) == [] && !AnyFallsBack(cfg.providers, e)
    ensures SameDefaults(k, Rebuild(cfg, e, k))
    ensures forall m :: Key("default", m) in Routes(k, MAIN) ==>
              Best(Rebuild(cfg, e, k), Rebuild(cfg, e, k).rules, p) == Some(MAIN_FIRST)
    ensures forall m :: LeastDefault(k, m) ==>
              Leaves(Rebuild(cfg, e, k), p, MAIN, Routes(k, MAIN)[Key("default", m)])
  {
    hide Swept, Tidy, Plain, UsableHops, WeightedHops, AnyFallsBack, FallbackTable, Balanced, HasFallback, Rebuild,
         Routes;
    Rebuilt(cfg, e, k);
    var k' := Rebuild(cfg, e, k);
    forall m | Key("default", m) in Routes(k, MAIN)
      ensures Best(k', k'.rules, p) == Some(MAIN_FIRST)
      ensures LeastDefault(k, m) ==> Leaves(k', p, MAIN, Routes(k, MAIN)[Key("default", m)])
    {
      assert Key("default", m) in Routes(k', MAIN);
      BestIs(k', k'.rules, p, MAIN_FIRST);
      if LeastDefault(k, m) {
        assert Picks(Routes(k', MAIN), p, Key("default", m));
      }
    }
  }

  // ------------------------------------------------------ main over many rebuilds

  /** The kernel after these rebuilds, one for each environment. */
  function Rebuilds(cfg: Config, es: seq<Env>, k: Kernel): Kernel {
    if es == [] then k else Rebuild(cfg, es[|es| - 1], Rebuilds(cfg, es[..|es| - 1], k))
  }

  /** A rebuild keeps main's defaults when nothing is usable, and otherwise takes
      them all out. */
  lemma OneRebuild(cfg: Config, e: Env, k: Kernel)
    requires Plain(cfg) && Tidy(cfg, k.rules) && STOCK in k.rules && !Swept(cfg, STOCK.pref)
    ensures if Idle(cfg, e) then SameDefaults(k, Rebuild(cfg, e, k)) else NoMainDefault(Rebuild(cfg, e, k))
    ensures Tidy(cfg, Rebuild(cfg, e, k).rules) && STOCK in Rebuild(cfg, e, k).rules
  {
    hide Swept, Tidy, Idle, UsableHops, WeightedHops, FallbackTable, Balanced, HasFallback, Rebuild, Routes,
         DefaultManaged, RouteApart;
    Rebuilt(cfg, e, k);
    RebuildTidy(cfg, e, k);
  }

  lemma {:induction false} ManyRebuilds(cfg: Config, es: seq<Env>, k: Kernel)
    requires Plain(cfg) && Tidy(cfg, k.rules) && STOCK in k.rules && !Swept(cfg, STOCK.pref)
    ensures if forall e :: e in es ==> Idle(cfg, e) then SameDefaults(k, Rebuilds(cfg, es, k))
            else NoMainDefault(Rebuilds(cfg, es, k))
    ensures Tidy(cfg, Rebuilds(cfg, es, k).rules) && STOCK in Rebuilds(cfg, es, k).rules
  {
    hide Plain, Tidy, Swept, Rebuild, Idle, Routes;
    if es != [] {
      var n := |es| - 1;
      ManyRebuilds(cfg, es[..n], k);
      OneRebuild(cfg, es[n], Rebuilds(cfg, es[..n], k));
      assert es == es[..n] + [es[n]];
    }
  }

  /** Main keeps its default routes over any run of rebuilds exactly when it had
      none or nothing was ever usable; otherwise it ends with none at all,
      whatever is usable by then. */
  lemma NotPutBack(cfg: Config, es: seq<Env>, k: Kernel)
    requires Plain(cfg) && Tidy(cfg, k.rules) && STOCK in k.rules && !Swept(cfg, STOCK.pref)
    ensures SameDefaults(k, Rebuilds(cfg, es, k)) <==> NoMainDefault(k) || forall e :: e in es ==> Idle(cfg, e)
    ensures !SameDefaults(k, Rebuilds(cfg, es, k)) ==> NoMainDefault(Rebuilds(cfg, es, k))
  {
    hide Plain, Tidy, Swept, Rebuilds, Idle, Routes;
    ManyRebuilds(cfg, es, k);
  }

  lemma FallbackTableNone(ps: seq<Provider>, e: Env)
    requires !AnyFallsBack(ps, e) && forall i, j :: 0 <= i < j < |ps| ==> ps[i].number != ps[j].number
    ensures FallbackTable(ps, e, map[]) == map[]
  {
    hide FallsBack, FallbackTable;
    FallbackTableHas(ps, e);
    assert forall key :: key !in FallbackTable(ps, e, map[]);
  }

  /** So with fallbacks configured, once anything was usable and then nothing
      is, an unclaimed packet has no route at all. */
  lemma Blackholed(cfg: Config, es: seq<Env>, e: Env, k: Kernel, p: Packet)
    requires Plain(cfg) && Tidy(cfg, k.rules) && STOCK in k.rules && !Swept(cfg, STOCK.pref) && HasFallback(cfg)
    requires Idle(cfg, e) && exists d :: d in es && !Idle(cfg, d)
    requires Unclaimed(cfg, Rebuild(cfg, e, Rebuilds(cfg, es, k)), p)
    ensures var k' := Rebuild(cfg, e, Rebuilds(cfg, es, k)); Best(k', k'.rules, p) == None
  {
    hide Swept, Tidy, UsableHops, WeightedHops, AnyFallsBack, FallbackTable, Balanced, HasFallback, Rebuild, Rebuilds,
         DefaultManaged, FewProviders;
    var pre := Rebuilds(cfg, es, k);
    ManyRebuilds(cfg, es, k);
    OneRebuild(cfg, e, pre);
    Rebuilt(cfg, e, pre);
    FallbackTableNone(cfg.providers, e);
    WeightedConfigured(cfg, cfg.providers, e);
    var k' := Rebuild(cfg, e, pre);
    NoneStays(pre, k');
    MainSilent(cfg, k', p);
    BestIn(k', k'.rules, p);
  }
}
