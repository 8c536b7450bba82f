/** Pair and policy chains mean what the configuration says. */
module EmitRules {
  import opened Wrappers
  import opened Columns
  import opened Nft
  import opened Zones
  import opened Emit

  /** The helper chains every pair chain may call. */
  ghost predicate Helpers(cfg: Config, t: Table) {
    && "reject_action" in t && t["reject_action"] == Chain(0, [Rule([], Final(Reject))])
    && (cfg.v6 || UsesAllowIcmps(cfg) ==>
          "AllowICMPs" in t && t["AllowICMPs"] == Chain(0, [Rule([NeededIcmp], Final(Accept))]))
    && (forall i: nat :: i < |Defaults(cfg)| ==>
          DefaultName(i) in t && t[DefaultName(i)] == Chain(1, ComponentsLines(Defaults(cfg)[i])))
  }

  // ------------------------------------------------------ lines that do not return

  /** The lines decide v, or fall off. */
  ghost predicate Yields(t: Table, ls: seq<Line>, level: nat, p: Packet, v: Option<Verdict>) {
    Layered(t) && LinesOk(t, ls, level) && Eval(t, ls, level, p) == if v.Some? then Decided(v.value) else Fell
  }

  /** The lines decide v, or hand the packet back to the caller. */
  ghost predicate Ends(t: Table, ls: seq<Line>, level: nat, p: Packet, v: Option<Verdict>) {
    && Layered(t) && LinesOk(t, ls, level)
    && if v.Some? then Eval(t, ls, level, p) == Decided(v.value) else !Eval(t, ls, level, p).Decided?
  }

  lemma YieldsNothing(t: Table, level: nat, p: Packet)
    requires Layered(t)
    ensures Yields(t, [], level, p, None)
  {
  }

  lemma YieldsBoth(t: Table, xs: seq<Line>, ys: seq<Line>, level: nat, p: Packet, a: Option<Verdict>,
      b: Option<Verdict>)
    requires Yields(t, xs, level, p, a) && Yields(t, ys, level, p, b)
    ensures Yields(t, xs + ys, level, p, OrElse(a, b))
  {
    EvalConcat(t, xs, ys, level, p);
  }

  lemma YieldsEnds(t: Table, xs: seq<Line>, ys: seq<Line>, level: nat, p: Packet, a: Option<Verdict>,
      b: Option<Verdict>)
    requires Yields(t, xs, level, p, a) && Ends(t, ys, level, p, b)
    ensures Ends(t, xs + ys, level, p, OrElse(a, b))
  {
    EvalConcat(t, xs, ys, level, p);
  }

  /** What a statement comes to when it runs. */
  ghost function Effect(t: Table, s: Stmt, p: Packet): Option<Verdict>
    requires Layered(t) && (s.Jump? ==> s.chain in t)
  {
    match s
    case Final(v) => Some(v)
    case Return => None
    case Jump(c) => Call(t, c, p)
  }

  lemma YieldsRule(t: Table, ts: seq<Test>, s: Stmt, level: nat, p: Packet)
    requires Layered(t) && StmtOk(t, s, level) && s != Return
    ensures Yields(t, [Rule(ts, s)], level, p, if SatAll(ts, p) then Effect(t, s, p) else None)
  {
    EvalOne(t, Rule(ts, s), level, p);
  }

  lemma CallReject(cfg: Config, t: Table, p: Packet)
    requires Layered(t) && Helpers(cfg, t)
    ensures Call(t, "reject_action", p) == Some(Reject)
  {
    EvalOne(t, Rule([], Final(Reject)), 0, p);
  }

  lemma SatOne(x: Test, p: Packet)
    ensures SatAll([x], p) <==> Sat(x, p)
  {
    assert [x][0] == x;
  }

  lemma CallIcmps(cfg: Config, t: Table, p: Packet)
    requires Layered(t) && Helpers(cfg, t) && (cfg.v6 || UsesAllowIcmps(cfg))
    ensures Call(t, "AllowICMPs", p) == if p.neededIcmp then Some(Accept) else None
  {
    EvalOne(t, Rule([NeededIcmp], Final(Accept)), 0, p);
    SatOne(NeededIcmp, p);
  }

  // ------------------------------------------------------------- rule lines

  ghost predicate StateOk(st: Option<Ct>, p: Packet) {
    st.Some? ==> p.ct == st.value
  }

  lemma LineTests(r: FwRule, st: Option<Ct>, sa: seq<Clause>, da: seq<Clause>, p: Packet)
    ensures SatAll(RuleLine(r, st, sa, da).tests, p) <==>
            StateOk(st, p) && AllSat(sa, p.srcItems) && AllSat(da, p.dstItems)
            && forall i :: 0 <= i < |r.extra| ==> r.extra[i] in p.other
  {
    SatConcat(StateTests(st) + SrcTests(sa) + DstTests(da), ExtraTests(r.extra), p);
    SatConcat(StateTests(st) + SrcTests(sa), DstTests(da), p);
    SatConcat(StateTests(st), SrcTests(sa), p);
    SatSides(sa, da, r.extra, p);
    if st.Some? { assert StateTests(st)[0] == CtIs({st.value}); }
  }

  lemma SatSides(sa: seq<Clause>, da: seq<Clause>, xs: seq<nat>, p: Packet)
    ensures SatAll(SrcTests(sa), p) <==> AllSat(sa, p.srcItems)
    ensures SatAll(DstTests(da), p) <==> AllSat(da, p.dstItems)
    ensures SatAll(ExtraTests(xs), p) <==> forall i :: 0 <= i < |xs| ==> xs[i] in p.other
  {
    forall i | 0 <= i < |sa| ensures Sat(SrcTests(sa)[i], p) <==> ClauseSat(sa[i], p.srcItems) {}
    forall i | 0 <= i < |da| ensures Sat(DstTests(da)[i], p) <==> ClauseSat(da[i], p.dstItems) {}
    forall i | 0 <= i < |xs| ensures Sat(ExtraTests(xs)[i], p) <==> xs[i] in p.other {}
  }

  lemma SatConcat(xs: seq<Test>, ys: seq<Test>, p: Packet)
    ensures SatAll(xs + ys, p) <==> SatAll(xs, p) && SatAll(ys, p)
  {
    if SatAll(xs + ys, p) {
      forall i | 0 <= i < |xs| ensures Sat(xs[i], p) { assert (xs + ys)[i] == xs[i]; }
      forall i | 0 <= i < |ys| ensures Sat(ys[i], p) { assert (xs + ys)[|xs| + i] == ys[i]; }
    }
  }

  lemma ActionEffect(cfg: Config, t: Table, r: FwRule, p: Packet)
    requires Layered(t) && Helpers(cfg, t) && r in cfg.rules
    ensures StmtOk(t, ActionStmt(r.action), 2) && ActionStmt(r.action) != Return
    ensures Effect(t, ActionStmt(r.action), p) == ActionVerdict(r.action, p)
  {
    CallReject(cfg, t, p);
    if r.action == ActAllowIcmps {
      assert UsesAllowIcmps(cfg);
      CallIcmps(cfg, t, p);
    }
  }

  /** The rule's other conditions, its address columns left aside. */
  ghost predicate Bare(r: FwRule, st: Option<Ct>, p: Packet) {
    StateOk(st, p) && forall i :: 0 <= i < |r.extra| ==> r.extra[i] in p.other
  }

  lemma {:induction false} YieldsForSource(cfg: Config, t: Table, r: FwRule, st: Option<Ct>, sa: seq<Clause>,
      das: seq<seq<Clause>>, p: Packet)
    requires Layered(t) && Helpers(cfg, t) && r in cfg.rules
    ensures Yields(t, LinesForSource(r, st, sa, das), 2, p,
              if Bare(r, st, p) && AllSat(sa, p.srcItems) && (exists da :: da in das && AllSat(da, p.dstItems))
              then ActionVerdict(r.action, p) else None)
  {
    hide Helpers, Layered, Eval, LinesOk;
    if das == [] {
      YieldsNothing(t, 2, p);
    } else {
      var pre, da := das[..|das| - 1], das[|das| - 1];
      assert das == pre + [da];
      YieldsForSource(cfg, t, r, st, sa, pre, p);
      ActionEffect(cfg, t, r, p);
      LineTests(r, st, sa, da, p);
      YieldsRule(t, RuleLine(r, st, sa, da).tests, ActionStmt(r.action), 2, p);
      YieldsBoth(t, LinesForSource(r, st, sa, pre), [RuleLine(r, st, sa, da)], 2, p,
        if Bare(r, st, p) && AllSat(sa, p.srcItems) && (exists d :: d in pre && AllSat(d, p.dstItems))
        then ActionVerdict(r.action, p) else None,
        if SatAll(RuleLine(r, st, sa, da).tests, p) then ActionVerdict(r.action, p) else None);
    }
  }

  lemma {:induction false} YieldsForSources(cfg: Config, t: Table, r: FwRule, st: Option<Ct>, sas: seq<seq<Clause>>,
      das: seq<seq<Clause>>, p: Packet)
    requires Layered(t) && Helpers(cfg, t) && r in cfg.rules
    ensures Yields(t, LinesForSources(r, st, sas, das), 2, p,
              if Bare(r, st, p) && (exists sa :: sa in sas && AllSat(sa, p.srcItems))
                 && (exists da :: da in das && AllSat(da, p.dstItems))
              then ActionVerdict(r.action, p) else None)
  {
    hide Helpers, Layered, Eval, LinesOk;
    if sas == [] {
      YieldsNothing(t, 2, p);
    } else {
      var pre, sa := sas[..|sas| - 1], sas[|sas| - 1];
      assert sas == pre + [sa];
      var to := exists da :: da in das && AllSat(da, p.dstItems);
      YieldsForSources(cfg, t, r, st, pre, das, p);
      YieldsForSource(cfg, t, r, st, sa, das, p);
      YieldsBoth(t, LinesForSources(r, st, pre, das), LinesForSource(r, st, sa, das), 2, p,
        if Bare(r, st, p) && (exists s :: s in pre && AllSat(s, p.srcItems))
            && to then ActionVerdict(r.action, p) else None,
        if Bare(r, st, p) && AllSat(sa, p.srcItems) && to then ActionVerdict(r.action, p) else None);
    }
  }

  lemma ColumnAlternativesExact(c: Option<Column>, holds: set<Item>)
    ensures (exists a :: a in ColumnAlternatives(c) && AllSat(a, holds)) <==> MaybeColumn(c, holds)
  {
    if c.None? {
      assert [] in ColumnAlternatives(c) && AllSat([], holds);
    } else {
      FanOutExact(c.value, holds);
    }
  }

  /** Fanning a rule out over its address columns leaves its verdict as it was. */
  lemma RuleLinesExact(cfg: Config, t: Table, r: FwRule, st: Option<Ct>, p: Packet)
    requires Layered(t) && Helpers(cfg, t) && r in cfg.rules
    ensures Yields(t, RuleLines(r, st), 2, p,
              if StateOk(st, p) && RuleMatches(r, p) then ActionVerdict(r.action, p) else None)
  {
    hide Helpers, Layered, Yields;
    YieldsForSources(cfg, t, r, st, ColumnAlternatives(r.saddr), ColumnAlternatives(r.daddr), p);
    ColumnAlternativesExact(r.saddr, p.srcItems);
    ColumnAlternativesExact(r.daddr, p.dstItems);
  }

  lemma {:induction false} SectionExact(cfg: Config, t: Table, rules: seq<FwRule>, z1: string, z2: string,
      sec: Section, st: Option<Ct>, p: Packet)
    requires Layered(t) && Helpers(cfg, t) && forall r :: r in rules ==> r in cfg.rules
    ensures Yields(t, SectionLines(rules, z1, z2, sec, st), 2, p,
              if StateOk(st, p) then FirstIn(rules, z1, z2, sec, p) else None)
  {
    hide Helpers, Layered, Eval, LinesOk, RuleLines, RuleMatches;
    if rules == [] {
      YieldsNothing(t, 2, p);
    } else {
      var pre, r := rules[..|rules| - 1], rules[|rules| - 1];
      SectionExact(cfg, t, pre, z1, z2, sec, st, p);
      var mine := if r.section == sec && Concerns(r, z1, z2) then RuleLines(r, st) else [];
      var v := if r.section == sec && Concerns(r, z1, z2) && StateOk(st, p) && RuleMatches(r, p)
               then ActionVerdict(r.action, p) else None;
      if r.section == sec && Concerns(r, z1, z2) {
        RuleLinesExact(cfg, t, r, st, p);
      } else {
        YieldsNothing(t, 2, p);
      }
      YieldsBoth(t, SectionLines(pre, z1, z2, sec, st), mine, 2, p,
                 if StateOk(st, p) then FirstIn(pre, z1, z2, sec, p) else None, v);
    }
  }

  // ---------------------------------------------------- the rest of a ladder

  lemma PreludeExact(cfg: Config, t: Table, level: nat, p: Packet)
    requires Layered(t) && Helpers(cfg, t) && level > 0
    ensures Yields(t, Prelude(cfg), level, p, IcmpMeaning(cfg, p))
  {
    if cfg.v6 {
      CallIcmps(cfg, t, p);
      YieldsRule(t, [Icmp6], Jump("AllowICMPs"), level, p);
      SatOne(Icmp6, p);
    } else {
      YieldsNothing(t, level, p);
    }
  }

  lemma StateAcceptExact(t: Table, p: Packet)
    requires Layered(t)
    ensures Yields(t, StateAccept(), 2, p,
              if p.ct == CtEstablished || p.ct == CtRelated then Some(Accept) else None)
  {
    var ts := [CtIs({CtEstablished, CtRelated})];
    YieldsRule(t, ts, Final(Accept), 2, p);
    assert SatAll(ts, p) <==> Sat(ts[0], p);
  }

  lemma InvalidExact(cfg: Config, t: Table, p: Packet)
    requires Layered(t) && Helpers(cfg, t)
    ensures Yields(t, InvalidLines(cfg.invalid), 2, p,
              if p.ct == CtInvalid then InvalidVerdict(cfg.invalid) else None)
  {
    var ts := [CtIs({CtInvalid})];
    assert SatAll(ts, p) <==> Sat(ts[0], p);
    CallReject(cfg, t, p);
    match cfg.invalid
    case InvContinue => YieldsNothing(t, 2, p);
    case InvDrop => YieldsRule(t, ts, Final(Drop), 2, p);
    case InvAuditDrop => YieldsRule(t, ts, Final(Drop), 2, p);
    case InvReject => YieldsRule(t, ts, Jump("reject_action"), 2, p);
    case InvAuditReject => YieldsRule(t, ts, Jump("reject_action"), 2, p);
  }

  lemma {:induction false} IndexOfIn<T>(xs: seq<T>, x: T)
    ensures x in xs ==> IndexOf(xs, x).Some?
    ensures IndexOf(xs, x).Some? ==> IndexOf(xs, x).value < |xs| && xs[IndexOf(xs, x).value] == x
  {
    if xs != [] {
      IndexOfIn(xs[..|xs| - 1], x);
      assert xs == xs[..|xs| - 1] + [xs[|xs| - 1]];
    }
  }

  lemma {:induction false} DefaultListHas(cfg: Config, actions: seq<PolicyAction>, a: PolicyAction)
    requires a in actions && DefaultFor(cfg, a).Some?
    ensures DefaultFor(cfg, a).value in DefaultList(cfg, actions)
  {
    var pre := actions[..|actions| - 1];
    assert actions == pre + [actions[|actions| - 1]];
    if a in pre {
      DefaultListHas(cfg, pre, a);
    }
  }

  /** A policy the compiler can look up: one from the file, or the implicit ACCEPT. */
  ghost predicate Known(cfg: Config, pol: Policy) {
    pol in cfg.policies || pol.action == PolAccept
  }

  lemma {:induction false} FirstPolicyKnown(pols: seq<Policy>, z1: string, z2: string)
    ensures var p := FirstPolicy(pols, z1, z2);
      p.Some? ==> p.value in pols && PolicyApplies(p.value, z1, z2)
  {
    if pols != [] && !PolicyApplies(pols[0], z1, z2) {
      FirstPolicyKnown(pols[1..], z1, z2);
    }
  }

  /** Every default action a policy needs has a registered chain. */
  lemma DefaultRegistered(cfg: Config, pol: Policy)
    requires Known(cfg, pol) && !pol.noDefault && DefaultFor(cfg, pol.action).Some?
    ensures var d := DefaultFor(cfg, pol.action).value;
      var i := IndexOf(Defaults(cfg), d);
      i.Some? && i.value < |Defaults(cfg)| && Defaults(cfg)[i.value] == d
  {
    var acts := PolicyActions(cfg.policies) + [PolAccept];
    if pol in cfg.policies {
      var i :| 0 <= i < |cfg.policies| && cfg.policies[i] == pol;
      assert acts[i] == pol.action;
    } else {
      assert acts[|acts| - 1] == PolAccept;
    }
    assert pol.action in acts;
    DefaultListHas(cfg, acts, pol.action);
    IndexOfIn(Defaults(cfg), DefaultFor(cfg, pol.action).value);
  }

  lemma ComponentExact(cfg: Config, t: Table, c: Component, p: Packet)
    requires Layered(t) && Helpers(cfg, t) && (c.Icmps? ==> cfg.v6 || UsesAllowIcmps(cfg))
    ensures Yields(t, ComponentLines(c), 1, p, ComponentVerdict(c, p))
  {
    CallReject(cfg, t, p);
    match c
    case Broadcasts(v) =>
      var b, a := [DaddrType(Broadcast)], [DaddrType(Anycast)];
      assert SatAll(b, p) <==> Sat(b[0], p);
      assert SatAll(a, p) <==> Sat(a[0], p);
      YieldsRule(t, b, VerdictStmt(v), 1, p);
      YieldsRule(t, a, VerdictStmt(v), 1, p);
      YieldsBoth(t, [Rule(b, VerdictStmt(v))], [Rule(a, VerdictStmt(v))], 1, p,
                 if SatAll(b, p) then Some(v) else None, if SatAll(a, p) then Some(v) else None);
      assert ComponentLines(c) == [Rule(b, VerdictStmt(v))] + [Rule(a, VerdictStmt(v))];
    case Multicasts(v) =>
      YieldsRule(t, [DaddrType(Multicast)], VerdictStmt(v), 1, p);
      SatOne(DaddrType(Multicast), p);
    case NotSyns =>
      YieldsRule(t, [TcpNotSyn], Final(Drop), 1, p);
      SatOne(TcpNotSyn, p);
    case Invalids =>
      YieldsRule(t, [CtIs({CtInvalid})], Final(Drop), 1, p);
      SatOne(CtIs({CtInvalid}), p);
    case Icmps =>
      CallIcmps(cfg, t, p);
      YieldsRule(t, [Icmp6], Jump("AllowICMPs"), 1, p);
      SatOne(Icmp6, p);
  }

  /** The helper chain of AllowICMPs is declared wherever a default action needs it. */
  ghost predicate IcmpsDeclared(cfg: Config) {
    forall i, j :: 0 <= i < |Defaults(cfg)| && 0 <= j < |Defaults(cfg)[i]| && Defaults(cfg)[i][j].Icmps? ==>
      cfg.v6 || UsesAllowIcmps(cfg)
  }

  lemma {:induction false} ComponentsExact(cfg: Config, t: Table, cs: seq<Component>, p: Packet)
    requires Layered(t) && Helpers(cfg, t)
    requires forall j :: 0 <= j < |cs| && cs[j].Icmps? ==> cfg.v6 || UsesAllowIcmps(cfg)
    ensures Yields(t, ComponentsLines(cs), 1, p, DefaultVerdict(cs, p))
  {
    hide Helpers, Layered, Eval, LinesOk;
    if cs == [] {
      YieldsNothing(t, 1, p);
    } else {
      var pre, c := cs[..|cs| - 1], cs[|cs| - 1];
      ComponentsExact(cfg, t, pre, p);
      ComponentExact(cfg, t, c, p);
      YieldsBoth(t, ComponentsLines(pre), ComponentLines(c), 1, p, DefaultVerdict(pre, p), ComponentVerdict(c, p));
    }
  }

  lemma DefaultLinesExact(cfg: Config, t: Table, pol: Policy, p: Packet)
    requires Layered(t) && Helpers(cfg, t) && IcmpsDeclared(cfg) && Known(cfg, pol)
    ensures var d := if pol.noDefault then None else DefaultFor(cfg, pol.action);
      Yields(t, DefaultLines(cfg, pol), 2, p, if d.Some? then DefaultVerdict(d.value, p) else None)
  {
    var d := if pol.noDefault then None else DefaultFor(cfg, pol.action);
    if d.None? {
      YieldsNothing(t, 2, p);
    } else {
      DefaultRegistered(cfg, pol);
      var i := IndexOf(Defaults(cfg), d.value).value;
      ComponentsExact(cfg, t, Defaults(cfg)[i], p);
      YieldsRule(t, [], Jump(DefaultName(i)), 2, p);
      assert SatAll([], p);
    }
  }

  lemma VerdictLinesExact(cfg: Config, t: Table, a: PolicyAction, p: Packet)
    requires Layered(t) && Helpers(cfg, t)
    ensures Ends(t, VerdictLines(a), 2, p, PolicyVerdict(a))
  {
    assert SatAll([], p);
    CallReject(cfg, t, p);
    match a
    case PolAccept => YieldsRule(t, [], Final(Accept), 2, p);
    case PolDrop => YieldsRule(t, [], Final(Drop), 2, p);
    case PolReject => YieldsRule(t, [], Jump("reject_action"), 2, p);
    case PolQueue => YieldsRule(t, [], Final(Queue), 2, p);
    case PolContinue => EvalOne(t, Rule([], Return), 2, p);
    case PolNone => YieldsNothing(t, 2, p);
  }

  lemma DispositionExact(cfg: Config, t: Table, pol: Policy, p: Packet)
    requires Layered(t) && Helpers(cfg, t) && IcmpsDeclared(cfg) && Known(cfg, pol)
    ensures Ends(t, DispositionLines(cfg, pol), 2, p, Disposition(cfg, pol, p))
  {
    hide Helpers, Layered, Yields, Ends;
    var d := if pol.noDefault then None else DefaultFor(cfg, pol.action);
    DefaultLinesExact(cfg, t, pol, p);
    VerdictLinesExact(cfg, t, pol.action, p);
    YieldsEnds(t, DefaultLines(cfg, pol), VerdictLines(pol.action), 2, p,
               if d.Some? then DefaultVerdict(d.value, p) else None, PolicyVerdict(pol.action));
  }

  /** The pair chain's ladder is the configuration's meaning of the pair. */
  lemma PairLinesExact(cfg: Config, t: Table, z1: string, z2: string, pol: Policy, p: Packet)
    requires Layered(t) && Helpers(cfg, t) && IcmpsDeclared(cfg) && Known(cfg, pol)
    requires PolicyFor(cfg, z1, z2) == Some(pol)
    ensures Ends(t, PairLines(cfg, z1, z2, pol), 2, p, PairMeaning(cfg, z1, z2, p))
  {
    hide Helpers, Layered, Yields, Ends, IcmpsDeclared, Known, SectionLines, FirstIn, Disposition, DispositionLines,
         PolicyFor;
    var rs := cfg.rules;
    PreludeExact(cfg, t, 2, p);
    SectionExact(cfg, t, rs, z1, z2, SecAll, None, p);
    SectionExact(cfg, t, rs, z1, z2, SecEstablished, Some(CtEstablished), p);
    SectionExact(cfg, t, rs, z1, z2, SecRelated, Some(CtRelated), p);
    StateAcceptExact(t, p);
    SectionExact(cfg, t, rs, z1, z2, SecInvalid, Some(CtInvalid), p);
    InvalidExact(cfg, t, p);
    SectionExact(cfg, t, rs, z1, z2, SecUntracked, Some(CtUntracked), p);
    SectionExact(cfg, t, rs, z1, z2, SecNew, None, p);
    DispositionExact(cfg, t, pol, p);
    var v0 := if cfg.v6 && p.icmp6 && p.neededIcmp then Some(Accept) else None;
    var v1 := FirstIn(rs, z1, z2, SecAll, p);
    var v2 := if p.ct == CtEstablished then FirstIn(rs, z1, z2, SecEstablished, p) else None;
    var v3 := if p.ct == CtRelated then FirstIn(rs, z1, z2, SecRelated, p) else None;
    var v4 := if p.ct == CtEstablished || p.ct == CtRelated then Some(Accept) else None;
    var v5 := if p.ct == CtInvalid then FirstIn(rs, z1, z2, SecInvalid, p) else None;
    var v6 := if p.ct == CtInvalid then InvalidVerdict(cfg.invalid) else None;
    var v7 := if p.ct == CtUntracked then FirstIn(rs, z1, z2, SecUntracked, p) else None;
    var v8 := FirstIn(rs, z1, z2, SecNew, p);
    var l0 := Prelude(cfg);
    var l1 := l0 + SectionLines(rs, z1, z2, SecAll, None);
    var l2 := l1 + SectionLines(rs, z1, z2, SecEstablished, Some(CtEstablished));
    var l3 := l2 + SectionLines(rs, z1, z2, SecRelated, Some(CtRelated));
    var l4 := l3 + StateAccept();
    var l5 := l4 + SectionLines(rs, z1, z2, SecInvalid, Some(CtInvalid));
    var l6 := l5 + InvalidLines(cfg.invalid);
    var l7 := l6 + SectionLines(rs, z1, z2, SecUntracked, Some(CtUntracked));
    var l8 := l7 + SectionLines(rs, z1, z2, SecNew, None);
    var a1, a2 := OrElse(v0, v1), OrElse(OrElse(v0, v1), v2);
    var a3 := OrElse(a2, v3);
    var a4 := OrElse(a3, v4);
    var a5 := OrElse(a4, v5);
    var a6 := OrElse(a5, v6);
    var a7 := OrElse(a6, v7);
    var a8 := OrElse(a7, v8);
    YieldsBoth(t, l0, SectionLines(rs, z1, z2, SecAll, None), 2, p, v0, v1);
    YieldsBoth(t, l1, SectionLines(rs, z1, z2, SecEstablished, Some(CtEstablished)), 2, p, a1, v2);
    YieldsBoth(t, l2, SectionLines(rs, z1, z2, SecRelated, Some(CtRelated)), 2, p, a2, v3);
    YieldsBoth(t, l3, StateAccept(), 2, p, a3, v4);
    YieldsBoth(t, l4, SectionLines(rs, z1, z2, SecInvalid, Some(CtInvalid)), 2, p, a4, v5);
    YieldsBoth(t, l5, InvalidLines(cfg.invalid), 2, p, a5, v6);
    YieldsBoth(t, l6, SectionLines(rs, z1, z2, SecUntracked, Some(CtUntracked)), 2, p, a6, v7);
    YieldsBoth(t, l7, SectionLines(rs, z1, z2, SecNew, None), 2, p, a7, v8);
    YieldsEnds(t, l8, DispositionLines(cfg, pol), 2, p, a8, Disposition(cfg, pol, p));
    assert PairLines(cfg, z1, z2, pol) == l8 + DispositionLines(cfg, pol);
  }

  lemma {:induction false} NoRulesFirst(rules: seq<FwRule>, z1: string, z2: string, sec: Section, p: Packet)
    requires forall i :: 0 <= i < |rules| ==> !Concerns(rules[i], z1, z2)
    ensures FirstIn(rules, z1, z2, sec, p) == None
  {
    if rules != [] {
      NoRulesFirst(rules[..|rules| - 1], z1, z2, sec, p);
    }
  }

  /** A shared chain means what the pair's own chain without rules would. */
  lemma PolicyLinesExact(cfg: Config, t: Table, z1: string, z2: string, pol: Policy, p: Packet)
    requires Layered(t) && Helpers(cfg, t) && IcmpsDeclared(cfg) && Known(cfg, pol)
    requires PolicyFor(cfg, z1, z2) == Some(pol) && !HasRules(cfg, z1, z2)
    ensures Ends(t, PolicyLines(cfg, pol), 2, p, PairMeaning(cfg, z1, z2, p))
  {
    hide Helpers, Layered, Yields, Ends, IcmpsDeclared, Known, FirstIn, Disposition, DispositionLines, PolicyFor;
    forall sec ensures FirstIn(cfg.rules, z1, z2, sec, p) == None {
      NoRulesFirst(cfg.rules, z1, z2, sec, p);
    }
    PreludeExact(cfg, t, 2, p);
    StateAcceptExact(t, p);
    InvalidExact(cfg, t, p);
    DispositionExact(cfg, t, pol, p);
    var v0 := if cfg.v6 && p.icmp6 && p.neededIcmp then Some(Accept) else None;
    var v1 := if p.ct == CtEstablished || p.ct == CtRelated then Some(Accept) else None;
    var v2 := if p.ct == CtInvalid then InvalidVerdict(cfg.invalid) else None;
    YieldsBoth(t, Prelude(cfg), StateAccept(), 2, p, v0, v1);
    YieldsBoth(t, Prelude(cfg) + StateAccept(), InvalidLines(cfg.invalid), 2, p, OrElse(v0, v1), v2);
    YieldsEnds(t, Prelude(cfg) + StateAccept() + InvalidLines(cfg.invalid), DispositionLines(cfg, pol), 2, p,
               OrElse(OrElse(v0, v1), v2), Disposition(cfg, pol, p));
  }

  // ------------------------------------------------------- a hook's opening

  lemma LoopbackExact(t: Table, hook: Hook, p: Packet)
    requires Layered(t)
    ensures Yields(t, Loopback(hook), 3, p,
              if (hook == Input && p.iif == "lo") || (hook == Output && p.oif == "lo") then Some(Accept) else None)
  {
    match hook
    case Input => YieldsRule(t, [Iif("lo")], Final(Accept), 3, p); SatOne(Iif("lo"), p);
    case Output => YieldsRule(t, [Oif("lo")], Final(Accept), 3, p); SatOne(Oif("lo"), p);
    case Forward => YieldsNothing(t, 3, p);
  }

  lemma FilterExact(cfg: Config, t: Table, f: Filter, p: Packet)
    requires Layered(t) && Helpers(cfg, t)
    ensures Yields(t, [Rule([Other(f.id)], VerdictStmt(f.verdict))], 3, p,
              if f.id in p.other then Some(f.verdict) else None)
  {
    CallReject(cfg, t, p);
    SatOne(Other(f.id), p);
    YieldsRule(t, [Other(f.id)], VerdictStmt(f.verdict), 3, p);
  }

  lemma {:induction false} FiltersExact(cfg: Config, t: Table, fs: seq<Filter>, hook: Hook, p: Packet)
    requires Layered(t) && Helpers(cfg, t)
    ensures Yields(t, FilterLines(fs, hook), 3, p, FilterMeaning(fs, hook, p))
  {
    hide Layered, Helpers, Yields, VerdictStmt;
    if fs == [] {
      YieldsNothing(t, 3, p);
    } else {
      var pre, f := fs[..|fs| - 1], fs[|fs| - 1];
      FiltersExact(cfg, t, pre, hook, p);
      if f.hook == hook {
        FilterExact(cfg, t, f, p);
        YieldsBoth(t, FilterLines(pre, hook), [Rule([Other(f.id)], VerdictStmt(f.verdict))], 3, p,
                   FilterMeaning(pre, hook, p), if f.id in p.other then Some(f.verdict) else None);
      } else {
        assert FilterLines(fs, hook) == FilterLines(pre, hook);
      }
    }
  }

  /** What a hook does before its dispatch. */
  lemma OpeningExact(cfg: Config, t: Table, hook: Hook, p: Packet)
    requires Layered(t) && Helpers(cfg, t)
    ensures Yields(t, HookOpening(cfg, hook), 3, p, OpeningMeaning(cfg, hook, p))
  {
    hide Layered, Helpers, Yields, FilterLines, FilterMeaning, Loopback, Prelude, IcmpMeaning;
    LoopbackExact(t, hook, p);
    PreludeExact(cfg, t, 3, p);
    FiltersExact(cfg, t, cfg.filters, hook, p);
    var lo := if (hook == Input && p.iif == "lo") || (hook == Output && p.oif == "lo") then Some(Accept) else None;
    YieldsBoth(t, Loopback(hook), Prelude(cfg), 3, p, lo, IcmpMeaning(cfg, p));
    YieldsBoth(t, Loopback(hook) + Prelude(cfg), FilterLines(cfg.filters, hook), 3, p,
               OrElse(lo, IcmpMeaning(cfg, p)), FilterMeaning(cfg.filters, hook, p));
  }
}
