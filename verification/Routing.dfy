/** The routing rebuild: the generated clear and build programs, the kernel
    state they act on, and what every rebuild leaves behind. */
module Routing {
  import opened Wrappers
  import opened Text

  // --------------------------------------------------------- configuration

  datatype Mark = Mark(value: nat, mask: nat)

  /** An uplink with an explicit gateway; mark 0 and balance 0 mean none. */
  datatype Provider = Provider(
    name: string, number: nat, mark: nat, iface: string, gateway: string,
    balance: nat, loose: bool, fallback: bool, fallbackWeight: nat)

  datatype RtRule = RtRule(
    source: Option<string>, iif: Option<string>, runtimeIface: Option<string>,
    dest: Option<string>, provider: string, priority: nat, mark: Option<Mark>)

  datatype Static = Static(table: nat, dest: string, gateway: Option<string>, device: Option<string>)

  datatype Config = Config(providers: seq<Provider>, rtrules: seq<RtRule>, routes: seq<Static>)

  const MAIN: nat := 254
  const DEFAULT_TABLE: nat := 253
  const BALANCE: nat := 250

  // ----------------------------------------------------------- kernel state

  /** A policy rule; an absent selector matches everything. */
  datatype Rule = Rule(
    pref: nat, from: Option<string>, to: Option<string>, iif: Option<string>, mark: Option<Mark>, table: nat)

  /** What `ip rule del` is given; an absent selector is not compared. */
  datatype Pattern = Pattern(
    pref: nat, from: Option<string>, to: Option<string>, iif: Option<string>, mark: Option<Mark>, table: Option<nat>)

  datatype Hop = Hop(gateway: Option<string>, dev: Option<string>, weight: nat)

  /** Routes of one table differ in destination or metric. */
  datatype Key = Key(dest: string, metric: nat)

  type Table = map<Key, seq<Hop>>

  /** Rules in the order they were added, and the routing tables. */
  datatype Kernel = Kernel(rules: seq<Rule>, tables: map<nat, Table>)

  /** The kernel and the shell variables of one run. */
  datatype State = State(kernel: Kernel, nexthops: seq<Hop>, fbhops: seq<Hop>, have: bool)

  datatype Saved = Saved(key: Key, hops: seq<Hop>)

  /** What the script reads: interfaces that are up, providers marked down,
      addresses, and the default routes saved before the first start. */
  datatype Env = Env(up: set<string>, down: set<string>, addrs: map<string, seq<string>>, saved: seq<Saved>)

  predicate Usable(e: Env, name: string, iface: string) {
    iface in e.up && name !in e.down
  }

  function Addresses(e: Env, iface: string): seq<string> {
    if iface in e.addrs then e.addrs[iface] else []
  }

  function Routes(k: Kernel, t: nat): Table {
    if t in k.tables then k.tables[t] else map[]
  }

  // -------------------------------------------------------------- commands

  datatype Guard = Always | IfUsable(name: string, iface: string) | IfHave | IfHops | IfFbHops | IfAddress(dev: string)

  datatype Op =
    | DelAll(pref: nat)
    | DelOne(pat: Pattern)
    | Add(rule: Rule)
    | AddSources(iface: string, pref: nat, table: nat)
    | DelPinned(iface: string, pat: Pattern)
    | AddPinned(iface: string, rule: Rule)
    | Flush(table: nat)
    | Replace(table: nat, key: Key, hops: seq<Hop>)
    | ReplaceHops(table: nat)
    | ReplaceFbHops(table: nat)
    | DelRoute(table: nat, dest: string, gateway: Option<string>, device: Option<string>)
    | DelMainDefaults
    | ClearVars
    | PushHop(hop: Hop)
    | PushFbHop(hop: Hop)
    | SetHave
    | RestoreSaved

  /** One command; commands of one `if` block share its guard. */
  datatype Cmd = Cmd(guard: Guard, op: Op)

  predicate Fits(pat: Pattern, r: Rule) {
    && r.pref == pat.pref
    && (pat.from.Some? ==> r.from == pat.from) && (pat.to.Some? ==> r.to == pat.to)
    && (pat.iif.Some? ==> r.iif == pat.iif) && (pat.mark.Some? ==> r.mark == pat.mark)
    && (pat.table.Some? ==> r.table == pat.table.value)
  }

  /** `ip rule del`: the first rule that fits goes. */
  function DeleteFirst(rs: seq<Rule>, pat: Pattern): seq<Rule> {
    if rs == [] then []
    else if Fits(pat, rs[0]) then rs[1..]
    else [rs[0]] + DeleteFirst(rs[1..], pat)
  }

  /** `while ip rule del pref p; do :; done`. */
  function DeletePref(rs: seq<Rule>, pref: nat): seq<Rule> {
    if rs == [] then []
    else (if rs[0].pref == pref then [] else [rs[0]]) + DeletePref(rs[1..], pref)
  }

  function SourceRules(addrs: seq<string>, pref: nat, table: nat): seq<Rule> {
    if addrs == [] then []
    else
      var last := addrs[|addrs| - 1];
      SourceRules(addrs[..|addrs| - 1], pref, table) + [Rule(pref, Some(last), None, None, None, table)]
  }

  predicate HopIs(hops: seq<Hop>, gateway: Option<string>, device: Option<string>) {
    && |hops| == 1
    && (gateway.Some? ==> hops[0].gateway == gateway) && (device.Some? ==> hops[0].dev == device)
  }

  predicate Holds(g: Guard, e: Env, s: State) {
    match g
    case Always => true
    case IfUsable(n, i) => Usable(e, n, i)
    case IfHave => s.have
    case IfHops => s.nexthops != []
    case IfFbHops => s.fbhops != []
    case IfAddress(dev) => Addresses(e, dev) != []
  }

  function WithRules(s: State, rs: seq<Rule>): State {
    s.(kernel := s.kernel.(rules := rs))
  }

  function WithTable(s: State, t: nat, table: Table): State {
    s.(kernel := s.kernel.(tables := s.kernel.tables[t := table]))
  }

  function Perform(op: Op, e: Env, s: State): State {
    var rs := s.kernel.rules;
    match op
    case DelAll(pref) => WithRules(s, DeletePref(rs, pref))
    case DelOne(pat) => WithRules(s, DeleteFirst(rs, pat))
    case Add(r) => WithRules(s, rs + [r])
    case AddSources(iface, pref, t) => WithRules(s, rs + SourceRules(Addresses(e, iface), pref, t))
    case DelPinned(iface, pat) =>
      var a := Addresses(e, iface);
      if a == [] then s else WithRules(s, DeleteFirst(rs, pat.(from := Some(a[0]))))
    case AddPinned(iface, r) =>
      var a := Addresses(e, iface);
      if a == [] then s else WithRules(s, rs + [r.(from := Some(a[0]))])
    case Flush(t) => WithTable(s, t, map[])
    case Replace(t, k, h) => WithTable(s, t, Routes(s.kernel, t)[k := h])
    case ReplaceHops(t) => WithTable(s, t, Routes(s.kernel, t)[Key("default", 0) := s.nexthops])
    case ReplaceFbHops(t) => WithTable(s, t, Routes(s.kernel, t)[Key("default", 0) := s.fbhops])
    case DelRoute(t, d, g, v) =>
      var table := Routes(s.kernel, t);
      WithTable(s, t, if Key(d, 0) in table && HopIs(table[Key(d, 0)], g, v) then table - {Key(d, 0)} else table)
    case DelMainDefaults => WithTable(s, MAIN, NoDefaults(Routes(s.kernel, MAIN)))
    case ClearVars => State(s.kernel, [], [], false)
    case PushHop(h) => s.(nexthops := s.nexthops + [h])
    case PushFbHop(h) => s.(fbhops := s.fbhops + [h])
    case SetHave => s.(have := true)
    case RestoreSaved => WithTable(s, MAIN, ReplaceAll(Routes(s.kernel, MAIN), e.saved))
  }

  function ReplaceAll(t: Table, saved: seq<Saved>): Table {
    if saved == [] then t
    else ReplaceAll(t, saved[..|saved| - 1])[saved[|saved| - 1].key := saved[|saved| - 1].hops]
  }

  /** `while ip route del default table main; do :; done`. */
  function NoDefaults(t: Table): Table {
    map k | k in t && k.dest != "default" :: t[k]
  }

  function Run(c: Cmd, e: Env, s: State): State {
    if Holds(c.guard, e, s) then Perform(c.op, e, s) else s
  }

  function RunAll(cs: seq<Cmd>, e: Env, s: State): State {
    if cs == [] then s else Run(cs[|cs| - 1], e, RunAll(cs[..|cs| - 1], e, s))
  }

  // -------------------------------------------------- the generated programs

  predicate Balanced(cfg: Config) {
    exists i :: 0 <= i < |cfg.providers| && cfg.providers[i].balance != 0
  }

  predicate HasFallback(cfg: Config) {
    exists i :: 0 <= i < |cfg.providers| && cfg.providers[i].fallback
  }

  predicate DefaultManaged(cfg: Config) {
    Balanced(cfg) || HasFallback(cfg)
  }

  /** With neither providers nor routes the script leaves routing alone. */
  predicate Active(cfg: Config) {
    cfg.providers != [] || cfg.routes != []
  }

  function MarkOf(p: Provider): Mark {
    Mark(p.mark, 0xff)
  }

  function MarkRule(p: Provider, i: nat): Rule {
    Rule(10000 + i, None, None, None, Some(MarkOf(p)), p.number)
  }

  const MAIN_RULE := Rule(32766, None, None, None, None, MAIN)
  const MAIN_FIRST := Rule(999, None, None, None, None, MAIN)
  const BALANCE_RULE := Rule(32765, None, None, None, None, BALANCE)

  function ClearProvider(p: Provider, i: nat): seq<Cmd> {
    [Cmd(Always, Flush(p.number))]
    + if p.mark == 0 then []
      else [Cmd(Always, DelOne(Pattern(10000 + i, None, None, None, Some(MarkOf(p)), None)))]
  }

  function ClearProviders(ps: seq<Provider>): seq<Cmd> {
    if ps == [] then [] else ClearProviders(ps[..|ps| - 1]) + ClearProvider(ps[|ps| - 1], |ps| - 1)
  }

  /** The distinct rtrules priorities, in order of first use. */
  function Priorities(rs: seq<RtRule>): seq<nat> {
    if rs == [] then []
    else
      var ps := Priorities(rs[..|rs| - 1]);
      if rs[|rs| - 1].priority in ps then ps else ps + [rs[|rs| - 1].priority]
  }

  function Sweeps(ps: seq<nat>): seq<Cmd> {
    if ps == [] then [] else Sweeps(ps[..|ps| - 1]) + [Cmd(Always, DelAll(ps[|ps| - 1]))]
  }

  function ClearDefaults(cfg: Config): seq<Cmd> {
    (if DefaultManaged(cfg) then [Cmd(Always, DelOne(Pattern(999, None, None, None, None, Some(MAIN))))] else [])
    + (if Balanced(cfg) then
         [Cmd(Always, DelOne(Pattern(32765, None, None, None, None, Some(BALANCE)))), Cmd(Always, Flush(BALANCE))]
       else [])
    + (if HasFallback(cfg) then [Cmd(Always, Flush(DEFAULT_TABLE))] else [])
  }

  function ClearRoutes(rs: seq<Static>): seq<Cmd> {
    if rs == [] then []
    else
      var r := rs[|rs| - 1];
      ClearRoutes(rs[..|rs| - 1]) + [Cmd(Always, DelRoute(r.table, r.dest, r.gateway, r.device))]
  }

  /** Strip everything a rebuild will add again. */
  function ClearCmds(cfg: Config): seq<Cmd> {
    if !Active(cfg) then []
    else
      [Cmd(Always, DelAll(20000))] + ClearProviders(cfg.providers) + Sweeps(Priorities(cfg.rtrules))
      + ClearDefaults(cfg) + ClearRoutes(cfg.routes)
  }

  function BuildProvider(p: Provider, i: nat): seq<Cmd> {
    var u, gw, dev := IfUsable(p.name, p.iface), [Hop(None, Some(p.iface), 1)],
        [Hop(Some(p.gateway), Some(p.iface), 1)];
    (if p.mark == 0 then [] else [Cmd(u, Add(MarkRule(p, i)))])
    + [Cmd(u, Replace(MAIN, Key(p.gateway, 0), gw)),
       Cmd(u, Replace(p.number, Key(p.gateway, 0), gw)),
       Cmd(u, Replace(p.number, Key("default", 0), dev))]
    + if p.loose then [] else [Cmd(u, AddSources(p.iface, 20000, p.number))]
  }

  function BuildProviders(ps: seq<Provider>): seq<Cmd> {
    if ps == [] then [] else BuildProviders(ps[..|ps| - 1]) + BuildProvider(ps[|ps| - 1], |ps| - 1)
  }

  predicate NamedBy(p: Provider, name: string, byNumber: bool) {
    if byNumber then NatText(p.number) == name else p.name == name
  }

  /** The number of the last provider so named. */
  function Named(ps: seq<Provider>, name: string, byNumber: bool): Option<nat> {
    if ps == [] then None
    else if NamedBy(ps[|ps| - 1], name, byNumber) then Some(ps[|ps| - 1].number)
    else Named(ps[..|ps| - 1], name, byNumber)
  }

  /** The table of a provider number, else of a provider name, else of main or default. */
  function TableOf(ps: seq<Provider>, name: string): nat {
    if Named(ps, name, true).Some? then Named(ps, name, true).value
    else if Named(ps, name, false).Some? then Named(ps, name, false).value
    else if name == "main" then MAIN
    else DEFAULT_TABLE
  }

  function BuildRtRule(ps: seq<Provider>, r: RtRule): seq<Cmd> {
    var t := TableOf(ps, r.provider);
    if r.runtimeIface.Some? then
      var g := IfAddress(r.runtimeIface.value);
      [Cmd(g, DelPinned(r.runtimeIface.value, Pattern(r.priority, None, r.dest, r.iif, r.mark, None))),
       Cmd(g, AddPinned(r.runtimeIface.value, Rule(r.priority, None, r.dest, r.iif, r.mark, t)))]
    else
      [Cmd(Always, DelOne(Pattern(r.priority, r.source, r.dest, r.iif, r.mark, None))),
       Cmd(Always, Add(Rule(r.priority, r.source, r.dest, r.iif, r.mark, t)))]
  }

  function BuildRtRules(ps: seq<Provider>, rs: seq<RtRule>): seq<Cmd> {
    if rs == [] then [] else BuildRtRules(ps, rs[..|rs| - 1]) + BuildRtRule(ps, rs[|rs| - 1])
  }

  function BalanceHop(p: Provider): Hop {
    Hop(Some(p.gateway), Some(p.iface), p.balance)
  }

  function HopCmds(ps: seq<Provider>): seq<Cmd> {
    if ps == [] then []
    else
      var p := ps[|ps| - 1];
      HopCmds(ps[..|ps| - 1])
      + if p.balance == 0 then []
        else [Cmd(IfUsable(p.name, p.iface), PushHop(BalanceHop(p))), Cmd(IfUsable(p.name, p.iface), SetHave)]
  }

  function FallbackOp(p: Provider): Op {
    if p.fallbackWeight != 0 then PushFbHop(Hop(Some(p.gateway), Some(p.iface), p.fallbackWeight))
    else Replace(DEFAULT_TABLE, Key("default", p.number), [Hop(Some(p.gateway), Some(p.iface), 1)])
  }

  function FallbackCmds(ps: seq<Provider>): seq<Cmd> {
    if ps == [] then []
    else
      var p := ps[|ps| - 1];
      FallbackCmds(ps[..|ps| - 1])
      + if !p.fallback then []
        else [Cmd(IfUsable(p.name, p.iface), FallbackOp(p)), Cmd(IfUsable(p.name, p.iface), SetHave)]
  }

  /** Move main's lookup ahead, take its default out if a provider default
      stands in for it, and install the balanced and weighted defaults. */
  function InstallCmds(): seq<Cmd> {
    [Cmd(Always, Add(MAIN_FIRST)),
     Cmd(IfHave, DelOne(Pattern(32766, None, None, None, None, Some(MAIN)))),
     Cmd(IfHave, DelMainDefaults),
     Cmd(IfHops, ReplaceHops(BALANCE)),
     Cmd(IfHops, Add(BALANCE_RULE)),
     Cmd(IfFbHops, ReplaceFbHops(DEFAULT_TABLE))]
  }

  function BuildDefaults(cfg: Config): seq<Cmd> {
    if !DefaultManaged(cfg) then []
    else [Cmd(Always, ClearVars)] + HopCmds(cfg.providers) + FallbackCmds(cfg.providers) + InstallCmds()
  }

  function BuildRoutes(rs: seq<Static>): seq<Cmd> {
    if rs == [] then []
    else
      var r := rs[|rs| - 1];
      BuildRoutes(rs[..|rs| - 1]) + [Cmd(Always, Replace(r.table, Key(r.dest, 0), [Hop(r.gateway, r.device, 1)]))]
  }

  function BuildCmds(cfg: Config): seq<Cmd> {
    if !Active(cfg) then []
    else
      BuildProviders(cfg.providers) + BuildRtRules(cfg.providers, cfg.rtrules) + BuildDefaults(cfg)
      + BuildRoutes(cfg.routes)
  }

  /** Teardown after a clear: the stock rule for main, then the saved default. */
  function RestoreCmds(cfg: Config): seq<Cmd> {
    if !Active(cfg) then []
    else (if DefaultManaged(cfg) then [Cmd(Always, Add(MAIN_RULE))] else []) + [Cmd(Always, RestoreSaved)]
  }

  // ----------------------------------------------------------- the generator

  method Generate(cfg: Config) returns (build: seq<Cmd>, clear: seq<Cmd>, restore: seq<Cmd>)
    ensures build == BuildCmds(cfg) && clear == ClearCmds(cfg) && restore == RestoreCmds(cfg)
  {
    hide BuildProviders, BuildRtRules, ClearProviders, Sweeps, Priorities, ClearDefaults, ClearRoutes, BuildRoutes,
         DefaultManaged, BuildDefaults;
    if cfg.providers == [] && cfg.routes == [] {
      return [], [], [];
    }
    restore := [];
    var ps, rts := cfg.providers, cfg.rtrules;
    clear := ClearProviderLoop(ps);
    var pris := PriorityLoop(rts);
    var sweeps := SweepLoop(pris);
    clear := clear + sweeps + ClearDefaults(cfg);
    build := BuildProviderLoop(ps);
    var rules := RtRuleLoop(ps, rts);
    build := build + rules;
    if DefaultManaged(cfg) {
      var defaults := DefaultsLoop(cfg);
      build := build + defaults;
      restore := restore + [Cmd(Always, Add(MAIN_RULE))];
    }
    assert !DefaultManaged(cfg) ==> BuildDefaults(cfg) == [] by { NoDefaultCmds(cfg); }
    assert build == BuildProviders(ps) + BuildRtRules(ps, rts) + BuildDefaults(cfg);
    var up, down := RoutesLoop(cfg.routes);
    build := build + up;
    clear := clear + down;
    restore := restore + [Cmd(Always, RestoreSaved)];
  }

  lemma NoDefaultCmds(cfg: Config)
    ensures !DefaultManaged(cfg) ==> BuildDefaults(cfg) == []
  {
  }

  method ClearProviderLoop(ps: seq<Provider>) returns (clear: seq<Cmd>)
    ensures clear == [Cmd(Always, DelAll(20000))] + ClearProviders(ps)
  {
    clear := [Cmd(Always, DelAll(20000))];
    for i := 0 to |ps|
      invariant clear == [Cmd(Always, DelAll(20000))] + ClearProviders(ps[..i])
    {
      assert ps[..i + 1][..i] == ps[..i];
      clear := clear + [Cmd(Always, Flush(ps[i].number))];
      if ps[i].mark != 0 {
        clear := clear + [Cmd(Always, DelOne(Pattern(10000 + i, None, None, None, Some(MarkOf(ps[i])), None)))];
      }
    }
    assert ps[..|ps|] == ps;
  }

  method PriorityLoop(rts: seq<RtRule>) returns (pris: seq<nat>)
    ensures pris == Priorities(rts)
  {
    pris := [];
    for i := 0 to |rts|
      invariant pris == Priorities(rts[..i])
    {
      assert rts[..i + 1][..i] == rts[..i];
      if rts[i].priority !in pris {
        pris := pris + [rts[i].priority];
      }
    }
    assert rts[..|rts|] == rts;
  }

  method SweepLoop(pris: seq<nat>) returns (clear: seq<Cmd>)
    ensures clear == Sweeps(pris)
  {
    clear := [];
    for i := 0 to |pris|
      invariant clear == Sweeps(pris[..i])
    {
      assert pris[..i + 1][..i] == pris[..i];
      clear := clear + [Cmd(Always, DelAll(pris[i]))];
    }
    assert pris[..|pris|] == pris;
  }

  method RtRuleLoop(ps: seq<Provider>, rts: seq<RtRule>) returns (build: seq<Cmd>)
    ensures build == BuildRtRules(ps, rts)
  {
    hide BuildRtRule;
    build := [];
    for i := 0 to |rts|
      invariant build == BuildRtRules(ps, rts[..i])
    {
      assert rts[..i + 1][..i] == rts[..i];
      build := build + BuildRtRule(ps, rts[i]);
    }
    assert rts[..|rts|] == rts;
  }

  method BuildProviderLoop(ps: seq<Provider>) returns (build: seq<Cmd>)
    ensures build == BuildProviders(ps)
  {
    build := [];
    for i := 0 to |ps|
      invariant build == BuildProviders(ps[..i])
    {
      assert ps[..i + 1][..i] == ps[..i];
      ghost var before := build;
      var p := ps[i];
      var u := IfUsable(p.name, p.iface);
      if p.mark != 0 {
        build := build + [Cmd(u, Add(MarkRule(p, i)))];
      }
      build := build + [Cmd(u, Replace(MAIN, Key(p.gateway, 0), [Hop(None, Some(p.iface), 1)])),
                        Cmd(u, Replace(p.number, Key(p.gateway, 0), [Hop(None, Some(p.iface), 1)])),
                        Cmd(u, Replace(p.number, Key("default", 0), [Hop(Some(p.gateway), Some(p.iface), 1)]))];
      if !p.loose {
        build := build + [Cmd(u, AddSources(p.iface, 20000, p.number))];
      }
      assert build == before + BuildProvider(p, i);
    }
    assert ps[..|ps|] == ps;
  }

  method DefaultsLoop(cfg: Config) returns (build: seq<Cmd>)
    requires DefaultManaged(cfg)
    ensures build == BuildDefaults(cfg)
  {
    var ps := cfg.providers;
    build := [Cmd(Always, ClearVars)];
    for i := 0 to |ps|
      invariant build == [Cmd(Always, ClearVars)] + HopCmds(ps[..i])
    {
      assert ps[..i + 1][..i] == ps[..i];
      var p := ps[i];
      if p.balance != 0 {
        build := build + [Cmd(IfUsable(p.name, p.iface), PushHop(BalanceHop(p))),
            Cmd(IfUsable(p.name, p.iface), SetHave)];
      }
    }
    assert ps[..|ps|] == ps;
    ghost var before := build;
    for i := 0 to |ps|
      invariant build == before + FallbackCmds(ps[..i])
    {
      assert ps[..i + 1][..i] == ps[..i];
      var p := ps[i];
      if p.fallback {
        build := build + [Cmd(IfUsable(p.name, p.iface), FallbackOp(p)), Cmd(IfUsable(p.name, p.iface), SetHave)];
      }
    }
    build := build + InstallCmds();
  }

  method RoutesLoop(rs: seq<Static>) returns (up: seq<Cmd>, down: seq<Cmd>)
    ensures up == BuildRoutes(rs) && down == ClearRoutes(rs)
  {
    up, down := [], [];
    for i := 0 to |rs|
      invariant up == BuildRoutes(rs[..i]) && down == ClearRoutes(rs[..i])
    {
      assert rs[..i + 1][..i] == rs[..i];
      var r := rs[i];
      up := up + [Cmd(Always, Replace(r.table, Key(r.dest, 0), [Hop(r.gateway, r.device, 1)]))];
      down := down + [Cmd(Always, DelRoute(r.table, r.dest, r.gateway, r.device))];
    }
    assert rs[..|rs|] == rs;
  }
}
