/** The emitted table loads: every jump lands on a declared, lower chain,
    exactly when AllowICMPs is declared wherever it is jumped to. */
module EmitLayers {
  import opened Wrappers
  import opened Columns
  import opened Nft
  import opened Zones
  import opened Emit
  import opened EmitRules
  import opened EmitTable

  // ------------------------------------------------- statements of a ladder

  ghost predicate LadderStmt(cfg: Config, s: Stmt) {
    match s
    case Final(_) => true
    case Return => true
    case Jump(c) =>
      || c == "reject_action" || (c == "AllowICMPs" && (cfg.v6 || UsesAllowIcmps(cfg)))
      || exists i: nat :: i < |Defaults(cfg)| && c == DefaultName(i)
  }

  ghost predicate Ladder(cfg: Config, ls: seq<Line>) {
    forall l :: l in ls ==> l.Rule? && LadderStmt(cfg, l.stmt)
  }

  lemma {:induction false} LadderForSource(cfg: Config, r: FwRule, st: Option<Ct>, sa: seq<Clause>,
      das: seq<seq<Clause>>)
    requires r in cfg.rules
    ensures Ladder(cfg, LinesForSource(r, st, sa, das))
  {
    if das != [] {
      LadderForSource(cfg, r, st, sa, das[..|das| - 1]);
    }
  }

  lemma {:induction false} LadderForSources(cfg: Config, r: FwRule, st: Option<Ct>, sas: seq<seq<Clause>>,
      das: seq<seq<Clause>>)
    requires r in cfg.rules
    ensures Ladder(cfg, LinesForSources(r, st, sas, das))
  {
    if sas != [] {
      LadderForSources(cfg, r, st, sas[..|sas| - 1], das);
      LadderForSource(cfg, r, st, sas[|sas| - 1], das);
    }
  }

  lemma {:induction false} LadderSection(cfg: Config, rules: seq<FwRule>, z1: string, z2: string, sec: Section,
      st: Option<Ct>)
    requires forall r :: r in rules ==> r in cfg.rules
    ensures Ladder(cfg, SectionLines(rules, z1, z2, sec, st))
  {
    if rules != [] {
      var r := rules[|rules| - 1];
      LadderSection(cfg, rules[..|rules| - 1], z1, z2, sec, st);
      LadderForSources(cfg, r, st, ColumnAlternatives(r.saddr), ColumnAlternatives(r.daddr));
    }
  }

  lemma LadderTail(cfg: Config, pol: Policy)
    ensures Ladder(cfg, Prelude(cfg)) && Ladder(cfg, StateAccept()) && Ladder(cfg, InvalidLines(cfg.invalid))
    ensures Ladder(cfg, DispositionLines(cfg, pol))
  {
    hide Defaults, DefaultName;
    var d := DefaultFor(cfg, pol.action);
    if d.Some? {
      IndexOfIn(Defaults(cfg), d.value);
    }
  }

  lemma LadderConcat(cfg: Config, xs: seq<Line>, ys: seq<Line>)
    requires Ladder(cfg, xs) && Ladder(cfg, ys)
    ensures Ladder(cfg, xs + ys)
  {
  }

  lemma LadderPair(cfg: Config, z1: string, z2: string, pol: Policy)
    ensures Ladder(cfg, PairLines(cfg, z1, z2, pol))
    ensures Ladder(cfg, PolicyLines(cfg, pol))
  {
    hide Ladder, SectionLines, Prelude, StateAccept, InvalidLines, DispositionLines;
    var rs := cfg.rules;
    LadderTail(cfg, pol);
    LadderSection(cfg, rs, z1, z2, SecAll, None);
    LadderSection(cfg, rs, z1, z2, SecEstablished, Some(CtEstablished));
    LadderSection(cfg, rs, z1, z2, SecRelated, Some(CtRelated));
    LadderSection(cfg, rs, z1, z2, SecInvalid, Some(CtInvalid));
    LadderSection(cfg, rs, z1, z2, SecUntracked, Some(CtUntracked));
    LadderSection(cfg, rs, z1, z2, SecNew, None);
    var l1 := Prelude(cfg) + SectionLines(rs, z1, z2, SecAll, None);
    var l2 := l1 + SectionLines(rs, z1, z2, SecEstablished, Some(CtEstablished));
    var l3 := l2 + SectionLines(rs, z1, z2, SecRelated, Some(CtRelated));
    var l4 := l3 + StateAccept();
    var l5 := l4 + SectionLines(rs, z1, z2, SecInvalid, Some(CtInvalid));
    var l6 := l5 + InvalidLines(cfg.invalid);
    var l7 := l6 + SectionLines(rs, z1, z2, SecUntracked, Some(CtUntracked));
    var l8 := l7 + SectionLines(rs, z1, z2, SecNew, None);
    LadderConcat(cfg, Prelude(cfg), SectionLines(rs, z1, z2, SecAll, None));
    LadderConcat(cfg, l1, SectionLines(rs, z1, z2, SecEstablished, Some(CtEstablished)));
    LadderConcat(cfg, l2, SectionLines(rs, z1, z2, SecRelated, Some(CtRelated)));
    LadderConcat(cfg, l3, StateAccept());
    LadderConcat(cfg, l4, SectionLines(rs, z1, z2, SecInvalid, Some(CtInvalid)));
    LadderConcat(cfg, l5, InvalidLines(cfg.invalid));
    LadderConcat(cfg, l6, SectionLines(rs, z1, z2, SecUntracked, Some(CtUntracked)));
    LadderConcat(cfg, l7, SectionLines(rs, z1, z2, SecNew, None));
    LadderConcat(cfg, l8, DispositionLines(cfg, pol));
    LadderConcat(cfg, Prelude(cfg), StateAccept());
    LadderConcat(cfg, Prelude(cfg) + StateAccept(), InvalidLines(cfg.invalid));
    LadderConcat(cfg, Prelude(cfg) + StateAccept() + InvalidLines(cfg.invalid), DispositionLines(cfg, pol));
  }

  lemma LadderLoads(cfg: Config, t: Table, ls: seq<Line>)
    requires Helpers(cfg, t) && Ladder(cfg, ls)
    ensures LinesOk(t, ls, 2)
  {
    hide Defaults, ComponentsLines, DefaultName, UsesAllowIcmps;
    forall i | 0 <= i < |ls| ensures LineOk(t, ls[i], 2) {
      assert ls[i] in ls;
    }
  }

  lemma {:induction false} ComponentsLoad(cfg: Config, t: Table, cs: seq<Component>)
    requires Helpers(cfg, t) && forall j :: 0 <= j < |cs| && cs[j].Icmps? ==> cfg.v6 || UsesAllowIcmps(cfg)
    ensures LinesOk(t, ComponentsLines(cs), 1)
  {
    hide Defaults, DefaultName, UsesAllowIcmps;
    if cs != [] {
      ComponentsLoad(cfg, t, cs[..|cs| - 1]);
    }
  }

  // -------------------------------------------------------- claims and jumps

  lemma {:induction false} HostClaimsIn(hosts: seq<Host>, z: string)
    ensures forall c :: c in HostClaims(hosts, z) ==>
              c.zone == z && c.nets.Some? && exists i :: 0 <= i < |hosts| && hosts[i].iface == c.iface
  {
    if hosts != [] {
      var pre := hosts[..|hosts| - 1];
      HostClaimsIn(pre, z);
      forall c | c in HostClaims(pre, z)
        ensures exists i :: 0 <= i < |hosts| && hosts[i].iface == c.iface
      {
        var i :| 0 <= i < |pre| && pre[i].iface == c.iface;
        assert hosts[i].iface == c.iface;
      }
    }
  }

  lemma {:induction false} WholeClaimsIn(ifaces: seq<Interface>, z: string)
    ensures forall c :: c in WholeClaims(ifaces, z) ==>
              c.zone == z && c.nets.None? && Owned(ifaces, c)
  {
    if ifaces != [] {
      var pre := ifaces[..|ifaces| - 1];
      WholeClaimsIn(pre, z);
      forall c | c in WholeClaims(pre, z)
        ensures Owned(ifaces, c)
      {
        var i :| 0 <= i < |pre| && pre[i].zone == Some(z) && pre[i].physical == c.iface;
        assert ifaces[i].physical == c.iface;
      }
    }
  }

  ghost predicate Owned(ifaces: seq<Interface>, c: Claim) {
    exists i :: 0 <= i < |ifaces| && ifaces[i].zone == Some(c.zone) && ifaces[i].physical == c.iface
  }

  /** A claim the configuration makes: scoped by a hosts entry, or a zone's interface. */
  ghost predicate Made(cfg: Config, c: Claim) {
    && c.zone in NetZones(cfg)
    && (c.nets.Some? ==> Scoped(cfg, c.iface))
    && (c.nets.None? ==> Owned(cfg.interfaces, c))
  }

  lemma SourcesMade(cfg: Config, z: string)
    requires z in NetZones(cfg)
    ensures forall c :: c in Sources(cfg, z) ==> c.zone == z && Made(cfg, c)
  {
    hide NetZones;
    HostClaimsIn(cfg.hosts, z);
    WholeClaimsIn(cfg.interfaces, z);
    forall c | c in Sources(cfg, z) ensures c.zone == z && Made(cfg, c) {
      if c in HostClaims(cfg.hosts, z) {
        assert Scoped(cfg, c.iface);
      }
    }
  }

  lemma {:induction false} ClaimsMade(cfg: Config, zones: seq<string>)
    requires forall z :: z in zones ==> z in NetZones(cfg)
    ensures forall c :: c in ClaimsOf(cfg, zones) ==> Made(cfg, c)
  {
    hide NetZones, Made, Sources;
    if zones != [] {
      assert zones[|zones| - 1] in zones;
      ClaimsMade(cfg, zones[..|zones| - 1]);
      SourcesMade(cfg, zones[|zones| - 1]);
    }
  }

  ghost predicate MadePair(cfg: Config, c: (Claim, Claim)) {
    Made(cfg, c.0) && Made(cfg, c.1) && Dispatched(cfg, c.0, c.1)
  }

  lemma {:induction false} PairsWithMade(cfg: Config, a: Claim, bs: seq<Claim>)
    requires Made(cfg, a) && forall b :: b in bs ==> Made(cfg, b)
    ensures forall c :: c in PairsWith(cfg, a, bs) ==> MadePair(cfg, c)
  {
    hide Made, Dispatched;
    if bs != [] {
      assert bs[|bs| - 1] in bs;
      PairsWithMade(cfg, a, bs[..|bs| - 1]);
    }
  }

  lemma {:induction false} PairsAllMade(cfg: Config, xs: seq<Claim>, bs: seq<Claim>)
    requires (forall a :: a in xs ==> Made(cfg, a)) && forall b :: b in bs ==> Made(cfg, b)
    ensures forall c :: c in PairsAll(cfg, xs, bs) ==> MadePair(cfg, c)
  {
    hide Made, MadePair;
    if xs != [] {
      assert xs[|xs| - 1] in xs;
      PairsAllMade(cfg, xs[..|xs| - 1], bs);
      PairsWithMade(cfg, xs[|xs| - 1], bs);
    }
  }

  lemma {:induction false} PairsZonesMade(cfg: Config, z1: string, zones: seq<string>)
    requires z1 in NetZones(cfg) && forall z :: z in zones ==> z in NetZones(cfg)
    ensures forall c :: c in PairsZones(cfg, z1, zones) ==> MadePair(cfg, c)
  {
    hide Made, MadePair, NetZones, Sources;
    if zones != [] {
      assert zones[|zones| - 1] in zones;
      PairsZonesMade(cfg, z1, zones[..|zones| - 1]);
      SourcesMade(cfg, z1);
      SourcesMade(cfg, zones[|zones| - 1]);
      PairsAllMade(cfg, Sources(cfg, z1), Sources(cfg, zones[|zones| - 1]));
    }
  }

  lemma {:induction false} PairClaimsMade(cfg: Config, zones: seq<string>)
    requires forall z :: z in zones ==> z in NetZones(cfg)
    ensures forall c :: c in PairClaims(cfg, zones) ==> MadePair(cfg, c)
  {
    hide Made, MadePair, NetZones;
    if zones != [] {
      assert zones[|zones| - 1] in zones;
      PairClaimsMade(cfg, zones[..|zones| - 1]);
      PairsZonesMade(cfg, zones[|zones| - 1], NetZones(cfg));
    }
  }

  /** A statement a hook may run: a jump to some pair's chain. */
  ghost predicate HookJump(cfg: Config, chain: string) {
    exists x :: x in Pairs(cfg) && chain == ChainFor(cfg, x.0, x.1)
  }

  lemma SideJump(cfg: Config, hook: Hook, c: Claim)
    requires NamesOk(cfg) && Made(cfg, c)
    ensures HookJump(cfg, SideChain(cfg, hook, c.zone))
  {
    hide Pairs, ChainFor, NetZones;
    PairsIn(cfg);
    var x := if hook == Input then (c.zone, cfg.fw) else (cfg.fw, c.zone);
    assert x in Pairs(cfg);
  }

  lemma PairJump(cfg: Config, c: (Claim, Claim))
    requires NamesOk(cfg) && MadePair(cfg, c)
    ensures HookJump(cfg, PairChain(cfg, c)) && (c.0.zone, c.1.zone) in Pairs(cfg)
  {
    hide Pairs, ChainFor, NetZones;
    PairsIn(cfg);
    assert (c.0.zone, c.1.zone) in Pairs(cfg);
  }

  ghost predicate HookLine(cfg: Config, l: Line) {
    match l
    case Rule(_, s) => s.Jump? && HookJump(cfg, s.chain)
    case IifMap(es) => forall i :: 0 <= i < |es| ==> HookJump(cfg, es[i].1)
    case OifMap(es) => forall i :: 0 <= i < |es| ==> HookJump(cfg, es[i].1)
    case PairMap(es) => forall i :: 0 <= i < |es| ==> HookJump(cfg, es[i].1)
  }

  lemma HookLinesLoad(cfg: Config, t: Table, ls: seq<Line>)
    requires PairsLinked(cfg, t) && forall l :: l in ls ==> HookLine(cfg, l)
    ensures LinesOk(t, ls, 3)
  {
    hide LinesFor, ChainFor, Pairs, PolicyFor;
    forall i | 0 <= i < |ls| ensures LineOk(t, ls[i], 3) {
      assert ls[i] in ls;
      assert HookLine(cfg, ls[i]);
      forall c | HookJump(cfg, c) ensures StmtOk(t, Jump(c), 3) {
        var x :| x in Pairs(cfg) && c == ChainFor(cfg, x.0, x.1);
      }
    }
  }

  // ----------------------------------------------------------- sorted lines

  /** The lines of one rank, in order. */
  function Keep(s: seq<(nat, Line)>, r: nat): seq<(nat, Line)> {
    if s == [] then [] else Keep(s[..|s| - 1], r) + if s[|s| - 1].0 == r then [s[|s| - 1]] else []
  }

  ghost predicate AllOfRank(s: seq<(nat, Line)>, r: nat) {
    forall i :: 0 <= i < |s| ==> s[i].0 == r
  }

  lemma {:induction false} KeepRank(s: seq<(nat, Line)>, r: nat)
    ensures AllOfRank(Keep(s, r), r) && forall x :: x in Keep(s, r) ==> x in s
  {
    if s != [] {
      KeepRank(s[..|s| - 1], r);
    }
  }

  lemma {:induction false} InsertBetween(lo: seq<(nat, Line)>, hi: seq<(nat, Line)>, x: (nat, Line))
    requires lo == [] || lo[|lo| - 1].0 <= x.0
    requires forall i :: 0 <= i < |hi| ==> hi[i].0 > x.0
    ensures InsertByRank(lo + hi, x) == lo + [x] + hi
    decreases |hi|
  {
    if hi == [] {
      assert lo + hi == lo;
    } else {
      var pre := hi[..|hi| - 1];
      assert (lo + hi)[..|lo + hi| - 1] == lo + pre;
      InsertBetween(lo, pre, x);
      assert lo + [x] + hi == lo + [x] + pre + [hi[|hi| - 1]];
    }
  }

  lemma InsertAmong(a: seq<(nat, Line)>, b: seq<(nat, Line)>, c: seq<(nat, Line)>, x: (nat, Line))
    requires AllOfRank(a, 0) && AllOfRank(b, 1) && AllOfRank(c, 2) && x.0 <= 2
    ensures InsertByRank(a + b + c, x)
         == (if x.0 == 0 then a + [x] else a) + (if x.0 == 1 then b + [x] else b) + (if x.0 == 2 then c + [x] else c)
  {
    hide InsertByRank;
    if x.0 == 0 {
      assert a + b + c == a + (b + c);
      InsertBetween(a, b + c, x);
    } else if x.0 == 1 {
      InsertBetween(a + b, c, x);
    } else {
      assert a + b + c == a + b + c + [];
      InsertBetween(a + b + c, [], x);
    }
  }

  /** Sorting by rank keeps the order within each rank. */
  lemma {:induction false} SortIsStable(s: seq<(nat, Line)>)
    requires forall x :: x in s ==> x.0 <= 2
    ensures SortByRank(s) == Keep(s, 0) + Keep(s, 1) + Keep(s, 2)
  {
    if s != [] {
      hide InsertByRank, AllOfRank;
      var pre, x := s[..|s| - 1], s[|s| - 1];
      assert x in s;
      SortIsStable(pre);
      KeepRank(pre, 0);
      KeepRank(pre, 1);
      KeepRank(pre, 2);
      InsertAmong(Keep(pre, 0), Keep(pre, 1), Keep(pre, 2), x);
      KeepLast(s, 0);
      KeepLast(s, 1);
      KeepLast(s, 2);
    }
  }

  lemma KeepLast(s: seq<(nat, Line)>, r: nat)
    requires s != []
    ensures var x, k := s[|s| - 1], Keep(s[..|s| - 1], r);
      Keep(s, r) == if x.0 == r then k + [x] else k
  {
  }

  lemma SideSnoc(cfg: Config, hook: Hook, cs: seq<Claim>, c: Claim)
    ensures SideEntries(cfg, hook, cs + [c])
         == SideEntries(cfg, hook, cs) + if Mapped(cfg, c) then [(c.iface, SideChain(cfg, hook, c.zone))] else []
    ensures SideOrdered(cfg, hook, cs + [c])
         == SideOrdered(cfg, hook, cs)
            + if Mapped(cfg, c) then []
              else [(if c.nets.Some? then 0 else 1, Rule(SideTests(hook, c), Jump(SideChain(cfg, hook, c.zone))))]
  {
    assert (cs + [c])[..|cs|] == cs;
  }

  lemma PairSnoc(cfg: Config, cs: seq<(Claim, Claim)>, c: (Claim, Claim))
    ensures PairEntries(cfg, cs + [c])
         == PairEntries(cfg, cs) + if MappedPair(cfg, c) then [((c.0.iface, c.1.iface), PairChain(cfg, c))] else []
    ensures PairOrdered(cfg, cs + [c])
         == PairOrdered(cfg, cs)
            + if MappedPair(cfg, c) then []
              else [(Rank(c), Rule(SideTests(Input, c.0) + SideTests(Output, c.1), Jump(PairChain(cfg, c))))]
  {
    assert (cs + [c])[..|cs|] == cs;
  }

  lemma KeepSnoc(s: seq<(nat, Line)>, x: (nat, Line), r: nat)
    ensures Keep(s + [x], r) == if x.0 == r then Keep(s, r) + [x] else Keep(s, r)
  {
    KeepLast(s + [x], r);
    assert (s + [x])[..|s|] == s;
  }

  lemma SecondsConcat(xs: seq<(nat, Line)>, ys: seq<(nat, Line)>)
    ensures Seconds(xs + ys) == Seconds(xs) + Seconds(ys)
  {
  }

  lemma SortedLines(s: seq<(nat, Line)>)
    requires forall x :: x in s ==> x.0 <= 2
    ensures Seconds(SortByRank(s)) == Seconds(Keep(s, 0)) + Seconds(Keep(s, 1)) + Seconds(Keep(s, 2))
  {
    SortIsStable(s);
    SecondsConcat(Keep(s, 0) + Keep(s, 1), Keep(s, 2));
    SecondsConcat(Keep(s, 0), Keep(s, 1));
  }

  // ------------------------------------------------------------- hook lines

  lemma {:induction false} SideEntriesJump(cfg: Config, hook: Hook, cs: seq<Claim>)
    requires NamesOk(cfg) && forall c :: c in cs ==> Made(cfg, c)
    ensures forall e :: e in SideEntries(cfg, hook, cs) ==> HookJump(cfg, e.1)
  {
    hide NamesOk, Made, HookJump, SideChain;
    if cs != [] {
      assert cs[|cs| - 1] in cs;
      SideEntriesJump(cfg, hook, cs[..|cs| - 1]);
      SideJump(cfg, hook, cs[|cs| - 1]);
    }
  }

  lemma {:induction false} SideOrderedJump(cfg: Config, hook: Hook, cs: seq<Claim>)
    requires NamesOk(cfg) && forall c :: c in cs ==> Made(cfg, c)
    ensures forall x :: x in SideOrdered(cfg, hook, cs) ==> x.0 <= 1 && HookLine(cfg, x.1)
  {
    hide NamesOk, Made, HookJump, SideChain;
    if cs != [] {
      assert cs[|cs| - 1] in cs;
      SideOrderedJump(cfg, hook, cs[..|cs| - 1]);
      SideJump(cfg, hook, cs[|cs| - 1]);
    }
  }

  lemma KeptLines(cfg: Config, s: seq<(nat, Line)>, r: nat)
    requires forall x :: x in s ==> HookLine(cfg, x.1)
    ensures forall l :: l in Seconds(Keep(s, r)) ==> HookLine(cfg, l)
  {
    KeepRank(s, r);
    forall l | l in Seconds(Keep(s, r)) ensures HookLine(cfg, l) {
      var i :| 0 <= i < |Keep(s, r)| && Seconds(Keep(s, r))[i] == l;
      assert Keep(s, r)[i] in Keep(s, r);
    }
  }

  lemma SideDispatchLines(cfg: Config, hook: Hook)
    requires NamesOk(cfg)
    ensures forall l :: l in SideDispatch(cfg, hook) ==> HookLine(cfg, l)
  {
    hide NamesOk, HookJump, NetZones, Keep, SortByRank, SideOrdered, SideEntries, ClaimsOf;
    var cs := ClaimsOf(cfg, NetZones(cfg));
    ClaimsMade(cfg, NetZones(cfg));
    assert forall i :: 0 <= i < |SideEntries(cfg, hook, cs)| ==>
        SideEntries(cfg, hook, cs)[i] in SideEntries(cfg, hook, cs);
    SideEntriesJump(cfg, hook, cs);
    SideOrderedJump(cfg, hook, cs);
    var s := SideOrdered(cfg, hook, cs);
    SortedLines(s);
    KeptLines(cfg, s, 0);
    KeptLines(cfg, s, 1);
    KeptLines(cfg, s, 2);
  }

  lemma {:induction false} PairEntriesJump(cfg: Config, cs: seq<(Claim, Claim)>)
    requires NamesOk(cfg) && forall c :: c in cs ==> MadePair(cfg, c)
    ensures forall e :: e in PairEntries(cfg, cs) ==> HookJump(cfg, e.1)
  {
    hide NamesOk, MadePair, HookJump, PairChain;
    if cs != [] {
      assert cs[|cs| - 1] in cs;
      PairEntriesJump(cfg, cs[..|cs| - 1]);
      PairJump(cfg, cs[|cs| - 1]);
    }
  }

  lemma {:induction false} PairOrderedJump(cfg: Config, cs: seq<(Claim, Claim)>)
    requires NamesOk(cfg) && forall c :: c in cs ==> MadePair(cfg, c)
    ensures forall x :: x in PairOrdered(cfg, cs) ==> x.0 <= 2 && HookLine(cfg, x.1)
  {
    hide NamesOk, MadePair, HookJump, PairChain;
    if cs != [] {
      assert cs[|cs| - 1] in cs;
      PairOrderedJump(cfg, cs[..|cs| - 1]);
      PairJump(cfg, cs[|cs| - 1]);
    }
  }

  lemma {:induction false} DedupIn(ls: seq<Line>)
    ensures forall l :: l in Dedup(ls) <==> l in ls
  {
    if ls != [] {
      var pre := ls[..|ls| - 1];
      DedupIn(pre);
      assert ls == pre + [ls[|ls| - 1]];
    }
  }

  lemma PairMapLinesJump(cfg: Config, es: seq<((string, string), string)>)
    requires forall e :: e in es ==> HookJump(cfg, e.1)
    ensures forall l :: l in PairMapLines(cfg, es) ==> HookLine(cfg, l)
  {
    hide HookJump;
    assert forall i :: 0 <= i < |es| ==> es[i] in es;
  }

  lemma ForwardDispatchLines(cfg: Config)
    requires NamesOk(cfg)
    ensures forall l :: l in ForwardDispatch(cfg) ==> HookLine(cfg, l)
  {
    hide NamesOk, HookLine, NetZones, Keep, SortByRank, PairOrdered, PairEntries, PairClaims, Dedup, PairMapLines;
    var cs := PairClaims(cfg, NetZones(cfg));
    PairClaimsMade(cfg, NetZones(cfg));
    PairEntriesJump(cfg, cs);
    PairMapLinesJump(cfg, PairEntries(cfg, cs));
    PairOrderedJump(cfg, cs);
    var s := PairOrdered(cfg, cs);
    SortedLines(s);
    KeptLines(cfg, s, 0);
    KeptLines(cfg, s, 1);
    KeptLines(cfg, s, 2);
    DedupIn(Seconds(SortByRank(s)));
  }

  // ------------------------------------------------------------ the layering

  lemma {:induction false} FilterLadder(cfg: Config, fs: seq<Filter>, hook: Hook)
    ensures Ladder(cfg, FilterLines(fs, hook))
  {
    if fs != [] {
      FilterLadder(cfg, fs[..|fs| - 1], hook);
    }
  }

  lemma OpeningLadder(cfg: Config, hook: Hook)
    ensures Ladder(cfg, HookOpening(cfg, hook))
  {
    hide FilterLines, UsesAllowIcmps, Defaults, DefaultName;
    FilterLadder(cfg, cfg.filters, hook);
    LadderConcat(cfg, Loopback(hook), Prelude(cfg));
    LadderConcat(cfg, Loopback(hook) + Prelude(cfg), FilterLines(cfg.filters, hook));
  }

  lemma LinesOkHigher(t: Table, xs: seq<Line>, ys: seq<Line>)
    requires LinesOk(t, xs, 2) && LinesOk(t, ys, 3)
    ensures LinesOk(t, xs + ys, 3)
  {
    forall i | 0 <= i < |xs + ys|
      ensures LineOk(t, (xs + ys)[i], 3)
    {
      if i < |xs| {
        assert LineOk(t, xs[i], 2);
      } else {
        assert LineOk(t, ys[i - |xs|], 3);
      }
    }
  }

  lemma HookLoads(cfg: Config, t: Table, hook: Hook)
    requires NamesOk(cfg) && Linked(cfg, t)
    ensures LinesOk(t, HookOpening(cfg, hook) + Dispatch(cfg, hook), 3)
  {
    hide NamesOk, HookOpening, SideDispatch, ForwardDispatch, LinesOk, PairsLinked, Helpers, HooksLinked, Declared;
    OpeningLadder(cfg, hook);
    LadderLoads(cfg, t, HookOpening(cfg, hook));
    if hook == Forward {
      ForwardDispatchLines(cfg);
    } else {
      SideDispatchLines(cfg, hook);
    }
    HookLinesLoad(cfg, t, Dispatch(cfg, hook));
    LinesOkHigher(t, HookOpening(cfg, hook), Dispatch(cfg, hook));
  }

  lemma ChainLoads(cfg: Config, t: Table, n: string)
    requires NamesOk(cfg) && Linked(cfg, t) && IcmpsDeclared(cfg) && n in t
    ensures LinesOk(t, t[n].lines, t[n].level)
  {
    hide HookOpening, Dispatch, PairLines, PolicyLines, Pairs, NetZones, ChainFor, PolicyFor, NamesOk, LinesOk,
         ComponentsLines, DefaultName;
    assert Declared(cfg, n);
    assert HookName(Input) == "input" && HookName(Output) == "output" && HookName(Forward) == "forward";
    if hook :| n == HookName(hook) {
      HookLoads(cfg, t, hook);
    } else if n == "reject_action" || (n == "AllowICMPs" && (cfg.v6 || UsesAllowIcmps(cfg))) {
      LeafLoads(t, t[n].lines[0]);
      assert t[n].lines == [t[n].lines[0]];
    } else if i: nat :| i < |Defaults(cfg)| && n == DefaultName(i) {
      ComponentsLoad(cfg, t, Defaults(cfg)[i]);
    } else {
      var x :| x in Pairs(cfg) && n == ChainFor(cfg, x.0, x.1);
      LadderPair(cfg, x.0, x.1, PolicyFor(cfg, x.0, x.1).value);
      LadderLoads(cfg, t, t[n].lines);
    }
  }

  lemma LeafLoads(t: Table, l: Line)
    requires l.Rule? && l.stmt.Final?
    ensures LinesOk(t, [l], 0)
  {
  }

  lemma {:induction false} IcmpsLine(cs: seq<Component>, j: nat)
    requires j < |cs| && cs[j].Icmps?
    ensures Rule([Icmp6], Jump("AllowICMPs")) in ComponentsLines(cs)
  {
    if j < |cs| - 1 {
      IcmpsLine(cs[..|cs| - 1], j);
    }
  }

  lemma IcmpsUndeclared(cfg: Config, t: Table)
    requires NamesOk(cfg) && Linked(cfg, t) && !cfg.v6 && !UsesAllowIcmps(cfg)
    ensures "AllowICMPs" !in t
  {
    hide UsesAllowIcmps, Pairs, ChainFor, Defaults, NamesOk, Helpers, HooksLinked, PairsLinked;
    if "AllowICMPs" in t {
      assert Declared(cfg, "AllowICMPs");
      assert |"AllowICMPs"| == 10;
      FewDefaults(cfg);
      PlainName("AllowICMPs");
      if i: nat :| i < |Defaults(cfg)| && "AllowICMPs" == DefaultName(i) {
        DefaultBlocksIn(Defaults(cfg));
      } else {
        var x :| x in Pairs(cfg) && "AllowICMPs" == ChainFor(cfg, x.0, x.1);
        PairsIn(cfg);
        ChainForPaired(cfg, x.0, x.1);
      }
    }
  }

  /** The emitted table loads, every jump landing on a lower chain, exactly when
      no default action uses AllowICMPs in an IPv4 configuration whose rules do
      not: there the chain is jumped to but never emitted. */
  lemma LoadsExactly(cfg: Config, order: seq<string>)
    requires NamesOk(cfg) && PoliciesOk(cfg) && Orders(order, Shared(cfg, Pairs(cfg)))
    ensures Layered(Load(Blocks(cfg, order))) <==> IcmpsDeclared(cfg)
  {
    hide Blocks, Load, LinesOk, NamesOk, PoliciesOk, Defaults, ComponentsLines, DefaultName, UsesAllowIcmps,
         HooksLinked, PairsLinked, Declared;
    var t := Load(Blocks(cfg, order));
    BlocksLinked(cfg, order);
    if IcmpsDeclared(cfg) {
      forall n | n in t ensures LinesOk(t, t[n].lines, t[n].level) {
        ChainLoads(cfg, t, n);
      }
    } else {
      var i, j :| 0 <= i < |Defaults(cfg)| && 0 <= j < |Defaults(cfg)[i]| && Defaults(cfg)[i][j].Icmps?
                  && !cfg.v6 && !UsesAllowIcmps(cfg);
      IcmpsUndeclared(cfg, t);
      IcmpsLine(Defaults(cfg)[i], j);
      MissingJump(t, DefaultName(i), Rule([Icmp6], Jump("AllowICMPs")));
    }
  }

  /** The smallest such configuration: two zones, everything accepted, and
      AllowICMPs as the accept default. */
  function Unloadable(): Config {
    Config(
      false, true, "fw", ["fw", "net"], [],
      [Interface(Some("net"), "eth0", false)], [],
      [Policy("all", "all", PolAccept, false)], [], InvContinue,
      None, None, Some([Icmps]))
  }

  lemma NotLoaded(order: seq<string>)
    requires Orders(order, Shared(Unloadable(), Pairs(Unloadable())))
    ensures NamesOk(Unloadable()) && PoliciesOk(Unloadable()) && !Layered(Load(Blocks(Unloadable(), order)))
  {
    hide Blocks, Load, Layered, Pairs, Shared, Defaults;
    var cfg := Unloadable();
    AcceptListed(cfg);
    var i :| 0 <= i < |Defaults(cfg)| && Defaults(cfg)[i] == [Icmps];
    assert Defaults(cfg)[i][0].Icmps? && !IcmpsDeclared(cfg);
    forall z1, z2
      ensures PolicyFor(cfg, z1, z2).Some?
    {
      assert PolicyApplies(cfg.policies[0], z1, z2) || z1 == z2;
    }
    LoadsExactly(cfg, order);
  }

  /** The accept default is always among the emitted ones. */
  lemma AcceptListed(cfg: Config)
    ensures cfg.acceptDefault.Some? ==> cfg.acceptDefault.value in Defaults(cfg)
  {
    var actions := PolicyActions(cfg.policies) + [PolAccept];
    assert actions[|actions| - 1] == PolAccept;
  }

  lemma MissingJump(t: Table, n: string, l: Line)
    requires n in t && l in t[n].lines && l.Rule? && l.stmt.Jump? && l.stmt.chain !in t
    ensures !Layered(t)
  {
    var ls := t[n].lines;
    var i :| 0 <= i < |ls| && ls[i] == l;
    assert !LineOk(t, ls[i], t[n].level);
    assert !LinesOk(t, ls, t[n].level);
  }
}
