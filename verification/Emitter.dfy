/** The emitter itself: chains are built line by line and appended. */
module EmitterClass {
  import opened Wrappers
  import opened Columns
  import opened Nft
  import opened Zones
  import opened Emit
  import opened EmitTable
  import opened EmitLayers

  class Emitter {
    const cfg: Config
    var defaults: seq<seq<Component>>
    var lines: seq<Line>
    var blocks: seq<Block>

    constructor (c: Config)
      ensures cfg == c && defaults == Defaults(c) && lines == [] && blocks == []
    {
      cfg := c;
      defaults, lines, blocks := [], [], [];
      new;
      var actions := PolicyActions(cfg.policies) + [PolAccept];
      for i := 0 to |actions|
        invariant cfg == c && lines == [] && blocks == []
        invariant defaults == DefaultList(cfg, actions[..i])
      {
        assert actions[..i + 1][..i] == actions[..i];
        var d := DefaultFor(cfg, actions[i]);
        if d.Some? && d.value !in defaults {
          defaults := defaults + [d.value];
        }
      }
      assert actions[..|actions|] == actions;
    }

    method Out(l: Line)
      modifies this`lines
      ensures lines == old(lines) + [l]
    {
      lines := lines + [l];
    }

    method OutAll(ls: seq<Line>)
      modifies this`lines
      ensures lines == old(lines) + ls
    {
      for i := 0 to |ls|
        invariant lines == old(lines) + ls[..i]
      {
        Out(ls[i]);
        assert ls[..i + 1] == ls[..i] + [ls[i]];
      }
      assert ls[..|ls|] == ls;
    }

    method EmitSource(r: FwRule, st: Option<Ct>, sa: seq<Clause>, das: seq<seq<Clause>>)
      modifies this`lines
      ensures lines == old(lines) + LinesForSource(r, st, sa, das)
    {
      hide RuleLine;
      for j := 0 to |das|
        invariant lines == old(lines) + LinesForSource(r, st, sa, das[..j])
      {
        assert das[..j + 1][..j] == das[..j];
        Out(RuleLine(r, st, sa, das[j]));
      }
      assert das[..|das|] == das;
    }

    method EmitRule(r: FwRule, st: Option<Ct>)
      modifies this`lines
      ensures lines == old(lines) + RuleLines(r, st)
    {
      hide LinesForSource, LinesForSources, ColumnAlternatives;
      NoSources(r, st, ColumnAlternatives(r.daddr));
      var sas, das := ColumnAlternatives(r.saddr), ColumnAlternatives(r.daddr);
      for i := 0 to |sas|
        invariant lines == old(lines) + LinesForSources(r, st, sas[..i], das)
      {
        assert sas[..i + 1] == sas[..i] + [sas[i]];
        SourcesSnoc(r, st, sas[..i], sas[i], das);
        EmitSource(r, st, sas[i], das);
      }
      assert sas[..|sas|] == sas;
    }

    method EmitSection(z1: string, z2: string, sec: Section, st: Option<Ct>)
      modifies this`lines
      ensures lines == old(lines) + SectionLines(cfg.rules, z1, z2, sec, st)
    {
      hide RuleLines, Concerns;
      var rs := cfg.rules;
      for i := 0 to |rs|
        invariant lines == old(lines) + SectionLines(rs[..i], z1, z2, sec, st)
      {
        assert rs[..i + 1][..i] == rs[..i];
        if rs[i].section == sec && Concerns(rs[i], z1, z2) {
          EmitRule(rs[i], st);
        }
      }
      assert rs[..|rs|] == rs;
    }

    method EmitDisposition(pol: Policy)
      requires defaults == Defaults(cfg)
      modifies this`lines
      ensures lines == old(lines) + DispositionLines(cfg, pol)
    {
      var d := if pol.noDefault then None else DefaultFor(cfg, pol.action);
      if d.Some? {
        var i := IndexOf(defaults, d.value);
        if i.Some? {
          Out(Rule([], Jump(DefaultName(i.value))));
        }
      }
      OutAll(VerdictLines(pol.action));
    }

    method Close(name: string, level: nat)
      modifies this`lines, this`blocks
      ensures lines == [] && blocks == old(blocks) + [Block(name, level, old(lines))]
    {
      blocks := blocks + [Block(name, level, lines)];
      lines := [];
    }

    method PairChainBlock(z1: string, z2: string, pol: Policy)
      requires defaults == Defaults(cfg) && lines == []
      modifies this`lines, this`blocks
      ensures lines == [] && blocks == old(blocks) + [Block(Named(z1, z2), 2, PairLines(cfg, z1, z2, pol))]
    {
      hide Prelude, SectionLines, StateAccept, InvalidLines, DispositionLines;
      OutAll(Prelude(cfg));
      assert lines == Prelude(cfg);
      EmitSection(z1, z2, SecAll, None);
      EmitSection(z1, z2, SecEstablished, Some(CtEstablished));
      EmitSection(z1, z2, SecRelated, Some(CtRelated));
      OutAll(StateAccept());
      EmitSection(z1, z2, SecInvalid, Some(CtInvalid));
      OutAll(InvalidLines(cfg.invalid));
      EmitSection(z1, z2, SecUntracked, Some(CtUntracked));
      EmitSection(z1, z2, SecNew, None);
      EmitDisposition(pol);
      assert lines == PairLines(cfg, z1, z2, pol);
      Close(Named(z1, z2), 2);
    }

    method PolicyChainBlock(name: string, pol: Policy)
      requires defaults == Defaults(cfg) && lines == []
      modifies this`lines, this`blocks
      ensures lines == [] && blocks == old(blocks) + [Block(name, 2, PolicyLines(cfg, pol))]
    {
      hide Prelude, StateAccept, InvalidLines, DispositionLines;
      OutAll(Prelude(cfg));
      assert lines == Prelude(cfg);
      OutAll(StateAccept());
      OutAll(InvalidLines(cfg.invalid));
      EmitDisposition(pol);
      assert lines == PolicyLines(cfg, pol);
      Close(name, 2);
    }

    method OneSidedDispatch(hook: Hook)
      modifies this`lines
      ensures lines == old(lines) + SideDispatch(cfg, hook)
    {
      hide SideEntries, SideOrdered, NetZones, MapLine, SortByRank;
      var entries, ordered := CollectClaimsOf(hook);
      OutAll(MapLine(hook, entries));
      OutAll(Seconds(SortByRank(ordered)));
    }

    method CollectClaimsOf(hook: Hook) returns (entries: seq<(string, string)>, ordered: seq<(nat, Line)>)
      ensures var cs := ClaimsOf(cfg, NetZones(cfg));
        entries == SideEntries(cfg, hook, cs) && ordered == SideOrdered(cfg, hook, cs)
    {
      hide NetZones, Sources, SideTests, SideChain, Mapped;
      var nets := NetZones(cfg);
      entries, ordered := [], [];
      for i := 0 to |nets|
        invariant entries == SideEntries(cfg, hook, ClaimsOf(cfg, nets[..i]))
        invariant ordered == SideOrdered(cfg, hook, ClaimsOf(cfg, nets[..i]))
      {
        assert nets[..i + 1][..i] == nets[..i];
        entries, ordered := CollectSide(hook, Sources(cfg, nets[i]), entries, ordered, ClaimsOf(cfg, nets[..i]));
      }
      assert nets[..|nets|] == nets;
    }

    method CollectSide(hook: Hook, cs: seq<Claim>, entries0: seq<(string, string)>, ordered0: seq<(nat, Line)>,
                       ghost base: seq<Claim>)
      returns (entries: seq<(string, string)>, ordered: seq<(nat, Line)>)
      requires entries0 == SideEntries(cfg, hook, base) && ordered0 == SideOrdered(cfg, hook, base)
      ensures entries == SideEntries(cfg, hook, base + cs) && ordered == SideOrdered(cfg, hook, base + cs)
    {
      hide SideEntries, SideOrdered, SideTests, SideChain, Mapped;
      entries, ordered := entries0, ordered0;
      assert base + cs[..0] == base;
      for j := 0 to |cs|
        invariant entries == SideEntries(cfg, hook, base + cs[..j])
        invariant ordered == SideOrdered(cfg, hook, base + cs[..j])
      {
        var c := cs[j];
        SideSnoc(cfg, hook, base + cs[..j], c);
        assert base + cs[..j] + [c] == base + cs[..j + 1];
        if Mapped(cfg, c) {
          entries := entries + [(c.iface, SideChain(cfg, hook, c.zone))];
        } else {
          ordered := ordered + [(if c.nets.Some? then 0 else 1,
                                 Rule(SideTests(hook, c), Jump(SideChain(cfg, hook, c.zone))))];
        }
      }
      assert cs[..|cs|] == cs;
    }

    method EmitForward()
      modifies this`lines
      ensures lines == old(lines) + ForwardDispatch(cfg)
    {
      hide PairEntries, PairOrdered, SortByRank, PairMapLines, PairClaims, NetZones, Dedup;
      var entries, ordered := CollectPairs();
      OutAll(PairMapLines(cfg, entries));
      OutDistinct(Seconds(SortByRank(ordered)));
    }

    /** Each line once, where it first occurs. */
    method OutDistinct(sorted: seq<Line>)
      modifies this`lines
      ensures lines == old(lines) + Dedup(sorted)
    {
      var seen: seq<Line> := [];
      for i := 0 to |sorted|
        invariant seen == Dedup(sorted[..i]) && lines == old(lines) + seen
      {
        assert sorted[..i + 1][..i] == sorted[..i];
        if sorted[i] !in seen {
          seen := seen + [sorted[i]];
          Out(sorted[i]);
        }
      }
      assert sorted[..|sorted|] == sorted;
    }

    method CollectPairs() returns (entries: seq<((string, string), string)>, ordered: seq<(nat, Line)>)
      ensures var cs := PairClaims(cfg, NetZones(cfg));
        entries == PairEntries(cfg, cs) && ordered == PairOrdered(cfg, cs)
    {
      hide NetZones, PairsZones;
      var nets := NetZones(cfg);
      entries, ordered := [], [];
      for i := 0 to |nets|
        invariant entries == PairEntries(cfg, PairClaims(cfg, nets[..i]))
        invariant ordered == PairOrdered(cfg, PairClaims(cfg, nets[..i]))
      {
        assert nets[..i + 1][..i] == nets[..i];
        entries, ordered := CollectFrom(nets[i], entries, ordered, PairClaims(cfg, nets[..i]));
      }
      assert nets[..|nets|] == nets;
    }

    method CollectFrom(z1: string, entries0: seq<((string, string), string)>, ordered0: seq<(nat, Line)>,
                       ghost base: seq<(Claim, Claim)>)
      returns (entries: seq<((string, string), string)>, ordered: seq<(nat, Line)>)
      requires z1 in NetZones(cfg)
      requires entries0 == PairEntries(cfg, base) && ordered0 == PairOrdered(cfg, base)
      ensures var cs := base + PairsZones(cfg, z1, NetZones(cfg));
        entries == PairEntries(cfg, cs) && ordered == PairOrdered(cfg, cs)
    {
      hide Routeback, Sources, NetZones, PairEntries, PairOrdered, PairsAll;
      var nets := NetZones(cfg);
      entries, ordered := entries0, ordered0;
      assert base + PairsZones(cfg, z1, nets[..0]) == base;
      for j := 0 to |nets|
        invariant entries == PairEntries(cfg, base + PairsZones(cfg, z1, nets[..j]))
        invariant ordered == PairOrdered(cfg, base + PairsZones(cfg, z1, nets[..j]))
      {
        assert nets[..j + 1][..j] == nets[..j];
        ghost var done := base + PairsZones(cfg, z1, nets[..j]);
        ghost var more := PairsAll(cfg, Sources(cfg, z1), Sources(cfg, nets[j]));
        if z1 == nets[j] && !Routeback(cfg, z1) {
          SourcesMade(cfg, z1);
          NoRouteback(cfg, z1, Sources(cfg, z1), Sources(cfg, nets[j]));
          assert done + more == done;
        } else {
          entries, ordered := CollectZones(z1, nets[j], entries, ordered, done);
        }
        assert done + more == base + PairsZones(cfg, z1, nets[..j + 1]);
      }
      assert nets[..|nets|] == nets;
    }

    /** The two inner loops: every claim of z1 against every claim of z2. */
    method CollectZones(z1: string, z2: string, entries0: seq<((string, string), string)>,
                        ordered0: seq<(nat, Line)>, ghost base: seq<(Claim, Claim)>)
      returns (entries: seq<((string, string), string)>, ordered: seq<(nat, Line)>)
      requires entries0 == PairEntries(cfg, base) && ordered0 == PairOrdered(cfg, base)
      ensures var cs := base + PairsAll(cfg, Sources(cfg, z1), Sources(cfg, z2));
        entries == PairEntries(cfg, cs) && ordered == PairOrdered(cfg, cs)
    {
      hide PairEntries, PairOrdered, PairsWith;
      var xs, bs := Sources(cfg, z1), Sources(cfg, z2);
      entries, ordered := entries0, ordered0;
      assert base + PairsAll(cfg, xs[..0], bs) == base;
      for k := 0 to |xs|
        invariant entries == PairEntries(cfg, base + PairsAll(cfg, xs[..k], bs))
        invariant ordered == PairOrdered(cfg, base + PairsAll(cfg, xs[..k], bs))
      {
        assert xs[..k + 1][..k] == xs[..k];
        ghost var mid := base + PairsAll(cfg, xs[..k], bs);
        entries, ordered := CollectClaims(xs[k], bs, entries, ordered, mid);
        assert mid + PairsWith(cfg, xs[k], bs) == base + (PairsAll(cfg, xs[..k], bs) + PairsWith(cfg, xs[k], bs));
      }
      assert xs[..|xs|] == xs;
    }

    method CollectClaims(a: Claim, bs: seq<Claim>, entries0: seq<((string, string), string)>,
                         ordered0: seq<(nat, Line)>, ghost base: seq<(Claim, Claim)>)
      returns (entries: seq<((string, string), string)>, ordered: seq<(nat, Line)>)
      requires entries0 == PairEntries(cfg, base) && ordered0 == PairOrdered(cfg, base)
      ensures entries == PairEntries(cfg, base + PairsWith(cfg, a, bs))
      ensures ordered == PairOrdered(cfg, base + PairsWith(cfg, a, bs))
    {
      hide Dispatched, MappedPair, PairChain, SideTests, Rank, PairEntries, PairOrdered;
      entries, ordered := entries0, ordered0;
      assert base + PairsWith(cfg, a, bs[..0]) == base;
      for l := 0 to |bs|
        invariant entries == PairEntries(cfg, base + PairsWith(cfg, a, bs[..l]))
        invariant ordered == PairOrdered(cfg, base + PairsWith(cfg, a, bs[..l]))
      {
        assert bs[..l + 1][..l] == bs[..l];
        ghost var cs := base + PairsWith(cfg, a, bs[..l]);
        var c := (a, bs[l]);
        if Dispatched(cfg, a, bs[l]) {
          PairSnoc(cfg, cs, c);
          assert base + PairsWith(cfg, a, bs[..l + 1]) == cs + [c];
          if MappedPair(cfg, c) {
            entries := entries + [((c.0.iface, c.1.iface), PairChain(cfg, c))];
          } else {
            ordered := ordered + [(Rank(c),
                Rule(SideTests(Input, c.0) + SideTests(Output, c.1), Jump(PairChain(cfg, c))))];
          }
        } else {
          assert base + PairsWith(cfg, a, bs[..l + 1]) == cs;
        }
      }
      assert bs[..|bs|] == bs;
    }

    method Components(cs: seq<Component>)
      modifies this`lines
      ensures lines == old(lines) + ComponentsLines(cs)
    {
      for i := 0 to |cs|
        invariant lines == old(lines) + ComponentsLines(cs[..i])
      {
        assert cs[..i + 1][..i] == cs[..i];
        OutAll(ComponentLines(cs[i]));
      }
      assert cs[..|cs|] == cs;
    }

    method OpenHook(hook: Hook)
      modifies this`lines
      ensures lines == old(lines) + HookOpening(cfg, hook)
    {
      hide FilterLines, Loopback;
      OutAll(Loopback(hook));
      if cfg.v6 {
        Out(Rule([Icmp6], Jump("AllowICMPs")));
      }
      EmitFilters(hook);
    }

    method EmitFilters(hook: Hook)
      modifies this`lines
      ensures lines == old(lines) + FilterLines(cfg.filters, hook)
    {
      hide VerdictStmt;
      var fs := cfg.filters;
      for i := 0 to |fs|
        invariant lines == old(lines) + FilterLines(fs[..i], hook)
      {
        assert fs[..i + 1][..i] == fs[..i];
        if fs[i].hook == hook {
          Out(Rule([Other(fs[i].id)], VerdictStmt(fs[i].verdict)));
        }
      }
      assert fs[..|fs|] == fs;
    }

    method HookChain(hook: Hook)
      requires lines == []
      modifies this`lines, this`blocks
      ensures lines == [] && blocks == old(blocks) + [HookBlock(cfg, hook)]
    {
      hide HookOpening, SideDispatch, ForwardDispatch;
      OpenHook(hook);
      if hook == Forward {
        EmitForward();
      } else {
        OneSidedDispatch(hook);
      }
      assert lines == HookOpening(cfg, hook) + Dispatch(cfg, hook);
      Close(HookName(hook), 3);
    }

    method Hooks()
      requires lines == []
      modifies this`lines, this`blocks
      ensures lines == [] && blocks == old(blocks) + HookBlocks(cfg)
    {
      hide HookBlock;
      HookChain(Input);
      HookChain(Output);
      HookChain(Forward);
      assert HookBlocks(cfg) == [HookBlock(cfg, Input)] + [HookBlock(cfg, Output)] + [HookBlock(cfg, Forward)];
    }

    /** Pair chains as the pairs come, and a note of the shared ones. */
    method PairChains() returns (shared: map<string, (string, string)>)
      requires defaults == Defaults(cfg) && lines == [] && PoliciesOk(cfg)
      modifies this`lines, this`blocks
      ensures lines == [] && shared == Shared(cfg, Pairs(cfg))
      ensures blocks == old(blocks) + PairBlocks(cfg, Pairs(cfg))
    {
      hide Pairs, PolicyFor, ChainFor, PairLines, Defaults;
      var pairs := Pairs(cfg);
      shared := map[];
      for i := 0 to |pairs|
        invariant lines == [] && defaults == Defaults(cfg) && shared == Shared(cfg, pairs[..i])
        invariant blocks == old(blocks) + PairBlocks(cfg, pairs[..i])
      {
        assert pairs[..i + 1][..i] == pairs[..i];
        var z1, z2 := pairs[i].0, pairs[i].1;
        var name := ChainFor(cfg, z1, z2);
        if name == Named(z1, z2) {
          PairChainBlock(z1, z2, PolicyFor(cfg, z1, z2).value);
        } else {
          shared := shared[name := (z1, z2)];
        }
      }
      assert pairs[..|pairs|] == pairs;
    }

    method SharedChains(shared: map<string, (string, string)>, order: seq<string>)
      requires defaults == Defaults(cfg) && lines == []
      requires forall i :: 0 <= i < |order| ==> order[i] in shared
      requires forall n :: n in shared ==> PolicyFor(cfg, shared[n].0, shared[n].1).Some?
      modifies this`lines, this`blocks
      ensures lines == [] && blocks == old(blocks) + SharedBlocks(cfg, shared, order)
    {
      hide PolicyFor, PolicyLines, Defaults;
      for i := 0 to |order|
        invariant lines == [] && defaults == Defaults(cfg)
        invariant blocks == old(blocks) + SharedBlocks(cfg, shared, order[..i])
      {
        assert order[..i + 1][..i] == order[..i];
        var n := order[i];
        PolicyChainBlock(n, PolicyFor(cfg, shared[n].0, shared[n].1).value);
      }
      assert order[..|order|] == order;
    }

    method HelperChains()
      requires defaults == Defaults(cfg) && lines == []
      modifies this`lines, this`blocks
      ensures lines == [] && blocks == old(blocks) + HelperBlocks(cfg)
    {
      hide Defaults, ComponentsLines, DefaultName;
      if cfg.v6 || UsesAllowIcmps(cfg) {
        Out(Rule([NeededIcmp], Final(Accept)));
        assert lines == [Rule([NeededIcmp], Final(Accept))];
        Close("AllowICMPs", 0);
      }
      Out(Rule([], Final(Reject)));
      assert lines == [Rule([], Final(Reject))];
      Close("reject_action", 0);
      ghost var before := blocks;
      assert before == old(blocks) + LeafBlocks(cfg);
      assert before + DefaultBlocks(defaults[..0]) == before;
      for i := 0 to |defaults|
        invariant lines == [] && defaults == Defaults(cfg)
        invariant blocks == before + DefaultBlocks(defaults[..i])
      {
        assert defaults[..i + 1][..i] == defaults[..i];
        Components(defaults[i]);
        assert lines == ComponentsLines(defaults[i]);
        Close(DefaultName(i), 1);
        assert DefaultBlocks(defaults[..i + 1])
            == DefaultBlocks(defaults[..i]) + [Block(DefaultName(i), 1, ComponentsLines(defaults[i]))];
      }
      assert defaults[..|defaults|] == defaults;
    }

    /** The filter table, or the first error. */
    method Render() returns (r: Result<seq<Block>, Failure>)
      requires defaults == Defaults(cfg) && lines == [] && blocks == []
      modifies this`lines, this`blocks
      ensures r == Err(BadColumn) <==> !ColumnsOk(cfg)
      ensures r == Err(NoPolicy) <==> ColumnsOk(cfg) && !PoliciesOk(cfg)
      ensures r.Ok? ==> exists order :: Orders(order, Shared(cfg, Pairs(cfg))) && r.value == Blocks(cfg, order)
    {
      hide Defaults, HookBlocks, PairBlocks, Shared, SharedBlocks, HelperBlocks, Pairs, PolicyFor;
      if !ColumnsOk(cfg) {
        return Err(BadColumn);
      }
      if !PoliciesOk(cfg) {
        return Err(NoPolicy);
      }
      Hooks();
      var shared := PairChains();
      SharedIn(cfg, Pairs(cfg));
      forall n | n in shared ensures PolicyFor(cfg, shared[n].0, shared[n].1).Some? {
        assert shared[n] in Pairs(cfg);
      }
      var order := Listing(shared);
      SharedChains(shared, order);
      HelperChains();
      assert blocks == Blocks(cfg, order);
      return Ok(blocks);
    }
  }

  lemma SourcesSnoc(r: FwRule, st: Option<Ct>, sas: seq<seq<Clause>>, sa: seq<Clause>, das: seq<seq<Clause>>)
    ensures LinesForSources(r, st, sas + [sa], das) == LinesForSources(r, st, sas, das) + LinesForSource(r, st, sa, das)
  {
    hide LinesForSource;
    assert (sas + [sa])[..|sas|] == sas;
  }

  lemma NoSources(r: FwRule, st: Option<Ct>, das: seq<seq<Clause>>)
    ensures LinesForSources(r, st, [], das) == []
  {
  }

  lemma {:induction false} NoRoutebackWith(cfg: Config, z: string, a: Claim, bs: seq<Claim>)
    requires !Routeback(cfg, z) && a.zone == z && forall b :: b in bs ==> b.zone == z
    ensures PairsWith(cfg, a, bs) == []
  {
    hide Routeback;
    if bs != [] {
      assert bs[|bs| - 1] in bs;
      NoRoutebackWith(cfg, z, a, bs[..|bs| - 1]);
    }
  }

  lemma {:induction false} NoRouteback(cfg: Config, z: string, xs: seq<Claim>, bs: seq<Claim>)
    requires !Routeback(cfg, z) && (forall a :: a in xs ==> a.zone == z) && forall b :: b in bs ==> b.zone == z
    ensures PairsAll(cfg, xs, bs) == []
  {
    hide Routeback;
    if xs != [] {
      assert xs[|xs| - 1] in xs;
      NoRouteback(cfg, z, xs[..|xs| - 1], bs);
      NoRoutebackWith(cfg, z, xs[|xs| - 1], bs);
    }
  }

  /** The keys of the shared chains, in an unspecified order. */
  method Listing(m: map<string, (string, string)>) returns (order: seq<string>)
    ensures Orders(order, m)
  {
    order := [];
    var rest := m.Keys;
    while rest != {}
      invariant rest <= m.Keys
      invariant forall i, j :: 0 <= i < j < |order| ==> order[i] != order[j]
      invariant forall n :: n in order <==> n in m.Keys && n !in rest
      decreases rest
    {
      var n :| n in rest;
      rest := rest - {n};
      order := order + [n];
    }
  }
}
