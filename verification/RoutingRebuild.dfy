/** What a rebuild leaves behind: the managed rules and tables depend on the
    configuration and the inputs read, never on what was there before. */
module RoutingRebuild {
  import opened Wrappers
  import opened Routing

  // -------------------------------------------------------- the managed part

  predicate MarkSlot(ps: seq<Provider>, pref: nat) {
    10000 <= pref < 10000 + |ps| && ps[pref - 10000].mark != 0
  }

  /** Prefs that the clear half empties whatever they hold. */
  predicate Swept(cfg: Config, pref: nat) {
    pref == 20000 || exists r :: r in cfg.rtrules && r.priority == pref
  }

  predicate Managed(cfg: Config, pref: nat) {
    Active(cfg)
    && (Swept(cfg, pref) || MarkSlot(cfg.providers, pref)
        || (pref == 999 && DefaultManaged(cfg)) || (pref == 32765 && Balanced(cfg)))
  }

  predicate OwnTable(cfg: Config, t: nat) {
    Active(cfg)
    && ((exists p :: p in cfg.providers && p.number == t)
        || (t == BALANCE && Balanced(cfg)) || (t == DEFAULT_TABLE && HasFallback(cfg)))
  }

  /** The rules in managed prefs, in order. */
  function Kept(cfg: Config, rs: seq<Rule>): seq<Rule> {
    if rs == [] then []
    else (if Managed(cfg, rs[0].pref) then [rs[0]] else []) + Kept(cfg, rs[1..])
  }

  ghost predicate SameManaged(cfg: Config, a: Kernel, b: Kernel) {
    && Kept(cfg, a.rules) == Kept(cfg, b.rules)
    && forall t :: OwnTable(cfg, t) ==> Routes(a, t) == Routes(b, t)
  }

  /** The inputs a rebuild reads: which providers are usable, and the addresses. */
  predicate SameInputs(cfg: Config, a: Env, b: Env) {
    && a.addrs == b.addrs
    && forall p :: p in cfg.providers ==> Usable(a, p.name, p.iface) == Usable(b, p.name, p.iface)
  }

  predicate IsMarkRule(ps: seq<Provider>, r: Rule) {
    MarkSlot(ps, r.pref) && r == MarkRule(ps[r.pref - 10000], r.pref - 10000)
  }

  /** The rules that the clear half deletes one at a time. */
  predicate Single(cfg: Config, r: Rule) {
    IsMarkRule(cfg.providers, r) || (r == MAIN_FIRST && DefaultManaged(cfg)) || (r == BALANCE_RULE && Balanced(cfg))
  }

  /** Single-delete prefs hold only the compiler's own rule, at most once. */
  ghost predicate Tidy(cfg: Config, rs: seq<Rule>) {
    forall r :: r in rs && Managed(cfg, r.pref) && !Swept(cfg, r.pref) ==> Single(cfg, r) && multiset(rs)[r] <= 1
  }

  /** Mark rules stay below the source rules' pref. */
  predicate FewProviders(cfg: Config) {
    |cfg.providers| <= 10000
  }

  function Boot(k: Kernel): State {
    State(k, [], [], false)
  }

  /** `reroute_providers`: clear, then build. */
  function Rebuild(cfg: Config, e: Env, k: Kernel): Kernel {
    RunAll(BuildCmds(cfg), e, RunAll(ClearCmds(cfg), e, Boot(k))).kernel
  }

  // ------------------------------------------ commands respect the managed part

  lemma {:induction false} KeptPlus(cfg: Config, a: seq<Rule>, b: seq<Rule>)
    ensures Kept(cfg, a + b) == Kept(cfg, a) + Kept(cfg, b)
  {
    hide Managed;
    if a == [] {
      assert a + b == b;
    } else {
      assert (a + b)[1..] == a[1..] + b;
      KeptPlus(cfg, a[1..], b);
    }
  }

  lemma {:induction false} KeptDeletePref(cfg: Config, rs: seq<Rule>, pref: nat)
    ensures Kept(cfg, DeletePref(rs, pref)) == DeletePref(Kept(cfg, rs), pref)
  {
    hide Managed;
    if rs != [] {
      KeptDeletePref(cfg, rs[1..], pref);
      var first, rest := (if rs[0].pref == pref then [] else [rs[0]]), DeletePref(rs[1..], pref);
      KeptPlus(cfg, first, rest);
      assert [rs[0]][1..] == [];
      if Managed(cfg, rs[0].pref) {
        assert Kept(cfg, rs)[1..] == Kept(cfg, rs[1..]);
      } else {
        assert Kept(cfg, rs) == Kept(cfg, rs[1..]);
      }
    }
  }

  lemma {:induction false} KeptDeleteFirst(cfg: Config, rs: seq<Rule>, pat: Pattern)
    ensures Kept(cfg, DeleteFirst(rs, pat)) ==
            if Managed(cfg, pat.pref) then DeleteFirst(Kept(cfg, rs), pat) else Kept(cfg, rs)
  {
    hide Managed;
    if rs != [] {
      KeptDeleteFirst(cfg, rs[1..], pat);
      if !Fits(pat, rs[0]) {
        KeptPlus(cfg, [rs[0]], DeleteFirst(rs[1..], pat));
        assert [rs[0]][1..] == [];
      }
      if Managed(cfg, rs[0].pref) {
        assert Kept(cfg, rs)[1..] == Kept(cfg, rs[1..]);
      } else {
        assert Kept(cfg, rs) == Kept(cfg, rs[1..]);
      }
    }
  }

  ghost predicate Same(cfg: Config, a: State, b: State) {
    SameManaged(cfg, a.kernel, b.kernel) && a.nexthops == b.nexthops && a.fbhops == b.fbhops && a.have == b.have
  }

  /** A command of the build half that sees the same guard in both inputs. */
  predicate SameGuard(c: Cmd, a: Env, b: Env) {
    && !c.op.RestoreSaved?
    && (c.guard.IfUsable? ==> Usable(a, c.guard.name, c.guard.iface) == Usable(b, c.guard.name, c.guard.iface))
  }

  predicate ChangesRules(op: Op) {
    op.DelAll? || op.DelOne? || op.Add? || op.AddSources? || op.DelPinned? || op.AddPinned?
  }

  /** No command lets anything outside the managed part leak into it. */
  lemma PerformSame(cfg: Config, op: Op, d: Env, e: Env, a: State, b: State)
    requires Same(cfg, a, b) && d.addrs == e.addrs && !op.RestoreSaved?
    ensures Same(cfg, Perform(op, d, a), Perform(op, e, b))
  {
    hide Managed, OwnTable, Kept, Fits, NoDefaults, HopIs, ReplaceAll, DeletePref, DeleteFirst, SourceRules;
    if ChangesRules(op) {
      RulesSame(cfg, op, d, e, a, b);
    }
  }

  lemma RulesSame(cfg: Config, op: Op, d: Env, e: Env, a: State, b: State)
    requires Same(cfg, a, b) && d.addrs == e.addrs
    requires ChangesRules(op)
    ensures Same(cfg, Perform(op, d, a), Perform(op, e, b))
  {
    hide Managed, OwnTable, Kept, Fits, NoDefaults, HopIs, ReplaceAll, DeletePref, DeleteFirst, SourceRules;
    var rs, qs := a.kernel.rules, b.kernel.rules;
    match op
    case DelAll(pref) => KeptDeletePref(cfg, rs, pref); KeptDeletePref(cfg, qs, pref);
    case DelOne(pat) => KeptDeleteFirst(cfg, rs, pat); KeptDeleteFirst(cfg, qs, pat);
    case Add(r) => KeptPlus(cfg, rs, [r]); KeptPlus(cfg, qs, [r]);
    case AddSources(i, pref, t) =>
      var more := SourceRules(Addresses(d, i), pref, t);
      KeptPlus(cfg, rs, more); KeptPlus(cfg, qs, more);
    case DelPinned(i, pat) =>
      if Addresses(d, i) != [] {
        var at := pat.(from := Some(Addresses(d, i)[0]));
        KeptDeleteFirst(cfg, rs, at); KeptDeleteFirst(cfg, qs, at);
      }
    case AddPinned(i, r) =>
      if Addresses(d, i) != [] {
        var at := r.(from := Some(Addresses(d, i)[0]));
        KeptPlus(cfg, rs, [at]); KeptPlus(cfg, qs, [at]);
      }
  }

  lemma {:induction false} RunAllSame(cfg: Config, cs: seq<Cmd>, d: Env, e: Env, a: State, b: State)
    requires Same(cfg, a, b) && d.addrs == e.addrs
    requires forall c :: c in cs ==> SameGuard(c, d, e)
    ensures Same(cfg, RunAll(cs, d, a), RunAll(cs, e, b))
  {
    hide SameManaged, Perform;
    if cs != [] {
      var c := cs[|cs| - 1];
      RunAllSame(cfg, cs[..|cs| - 1], d, e, a, b);
      assert c in cs && SameGuard(c, d, e);
      PerformSame(cfg, c.op, d, e, RunAll(cs[..|cs| - 1], d, a), RunAll(cs[..|cs| - 1], e, b));
    }
  }

  predicate UsableAlike(ps: seq<Provider>, d: Env, e: Env) {
    forall p :: p in ps ==> Usable(d, p.name, p.iface) == Usable(e, p.name, p.iface)
  }

  predicate AllSameGuard(cs: seq<Cmd>, d: Env, e: Env) {
    forall c :: c in cs ==> SameGuard(c, d, e)
  }

  lemma {:induction false} ProviderGuards(ps: seq<Provider>, d: Env, e: Env)
    requires UsableAlike(ps, d, e)
    ensures AllSameGuard(BuildProviders(ps), d, e)
    ensures AllSameGuard(HopCmds(ps), d, e) && AllSameGuard(FallbackCmds(ps), d, e)
  {
    hide Usable, FallbackOp, BuildProvider;
    if ps != [] {
      var p := ps[|ps| - 1];
      assert p in ps;
      ProviderGuards(ps[..|ps| - 1], d, e);
      OneProviderGuards(p, |ps| - 1, d, e);
    }
  }

  lemma OneProviderGuards(p: Provider, i: nat, d: Env, e: Env)
    requires Usable(d, p.name, p.iface) == Usable(e, p.name, p.iface)
    ensures AllSameGuard(BuildProvider(p, i), d, e)
    ensures !FallbackOp(p).RestoreSaved?
  {
    hide Usable;
  }

  lemma {:induction false} RtRuleGuards(ps: seq<Provider>, rs: seq<RtRule>, d: Env, e: Env)
    ensures AllSameGuard(BuildRtRules(ps, rs), d, e)
  {
    hide Usable, TableOf;
    if rs != [] {
      RtRuleGuards(ps, rs[..|rs| - 1], d, e);
    }
  }

  lemma {:induction false} RouteGuards(rs: seq<Static>, d: Env, e: Env)
    ensures AllSameGuard(BuildRoutes(rs), d, e)
  {
    hide Usable;
    if rs != [] {
      RouteGuards(rs[..|rs| - 1], d, e);
    }
  }

  lemma BuildGuards(cfg: Config, d: Env, e: Env)
    requires SameInputs(cfg, d, e)
    ensures AllSameGuard(BuildCmds(cfg), d, e)
  {
    hide Usable, BuildProviders, HopCmds, FallbackCmds, BuildRtRules, BuildRoutes;
    assert UsableAlike(cfg.providers, d, e);
    ProviderGuards(cfg.providers, d, e);
    RtRuleGuards(cfg.providers, cfg.rtrules, d, e);
    RouteGuards(cfg.routes, d, e);
  }

  // ------------------------------------------------------ clearing leaves nothing

  lemma {:induction false} DeletePrefGone(rs: seq<Rule>, pref: nat)
    ensures multiset(DeletePref(rs, pref)) <= multiset(rs)
    ensures forall r :: r in DeletePref(rs, pref) ==> r.pref != pref
  {
    if rs != [] {
      DeletePrefGone(rs[1..], pref);
      assert rs == [rs[0]] + rs[1..];
    }
  }

  lemma {:induction false} DeleteFirstGone(rs: seq<Rule>, pat: Pattern, r: Rule)
    ensures multiset(DeleteFirst(rs, pat)) <= multiset(rs)
    ensures (Fits(pat, r) && multiset(rs)[r] <= 1 && forall x :: x in rs && Fits(pat, x) ==> x == r)
            ==> r !in DeleteFirst(rs, pat)
  {
    hide Fits;
    if rs != [] {
      assert rs == [rs[0]] + rs[1..];
      DeleteFirstGone(rs[1..], pat, r);
      if Fits(pat, rs[0]) && rs[0] == r && multiset(rs)[r] <= 1 {
        assert multiset(rs[1..])[r] == 0;
      }
    }
  }

  /** What single deletion of a rule names. */
  function Slot(r: Rule): Pattern {
    if r.mark.Some? then Pattern(r.pref, None, None, None, r.mark, None)
    else Pattern(r.pref, None, None, None, None, Some(r.table))
  }

  predicate Removing(c: Cmd) {
    c.guard.Always? && (c.op.DelAll? || c.op.DelOne? || c.op.Flush? || c.op.DelRoute?)
  }

  /** What a clear command has achieved, and no later one undoes. */
  ghost predicate Done(cfg: Config, op: Op, k: Kernel) {
    match op
    case DelAll(pref) => forall r :: r in k.rules ==> r.pref != pref
    case DelOne(pat) =>
      forall r :: r in k.rules && Managed(cfg, r.pref) && !Swept(cfg, r.pref) ==> Slot(r) != pat
    case Flush(t) => Routes(k, t) == map[]
    case _ => true
  }

  lemma SlotAlone(cfg: Config, r: Rule, x: Rule)
    requires FewProviders(cfg) && Single(cfg, r) && Single(cfg, x) && Fits(Slot(r), x)
    ensures r == x
  {
  }

  ghost predicate Shrunk(a: Kernel, b: Kernel) {
    && multiset(b.rules) <= multiset(a.rules)
    && forall t :: Routes(a, t) == map[] ==> Routes(b, t) == map[]
  }

  lemma RulesShrink(cfg: Config, rs: seq<Rule>, qs: seq<Rule>)
    requires multiset(qs) <= multiset(rs)
    ensures forall r :: r in qs ==> r in rs
    ensures Tidy(cfg, rs) ==> Tidy(cfg, qs)
  {
    hide Managed, Swept, Single;
    forall r | r in qs
      ensures r in rs && multiset(qs)[r] <= multiset(rs)[r]
    {
      assert r in multiset(qs);
      assert r in multiset(rs);
    }
  }

  lemma ClearOne(cfg: Config, c: Cmd, e: Env, s: State)
    requires FewProviders(cfg) && Removing(c) && Tidy(cfg, s.kernel.rules)
    ensures Shrunk(s.kernel, Run(c, e, s).kernel) && Tidy(cfg, Run(c, e, s).kernel.rules)
    ensures Done(cfg, c.op, Run(c, e, s).kernel)
    ensures Run(c, e, s) == s.(kernel := Run(c, e, s).kernel)
  {
    hide Managed, Swept, Single, Fits, HopIs, Tidy;
    var rs, qs := s.kernel.rules, Run(c, e, s).kernel.rules;
    match c.op {
      case DelAll(pref) => DeletePrefGone(rs, pref);
      case DelOne(pat) => DeleteOneDone(cfg, rs, pat);
      case Flush(t) =>
      case DelRoute(t, d, g, v) =>
    }
    RulesShrink(cfg, rs, qs);
  }

  lemma DeleteOneDone(cfg: Config, rs: seq<Rule>, pat: Pattern)
    requires FewProviders(cfg) && Tidy(cfg, rs)
    ensures multiset(DeleteFirst(rs, pat)) <= multiset(rs)
    ensures forall r :: r in DeleteFirst(rs, pat) && Managed(cfg, r.pref) && !Swept(cfg, r.pref) ==> Slot(r) != pat
  {
    hide Managed, Swept, Single, Fits;
    DeleteFirstGone(rs, pat, MAIN_FIRST);
    RulesShrink(cfg, rs, DeleteFirst(rs, pat));
    forall r | r in DeleteFirst(rs, pat) && Managed(cfg, r.pref) && !Swept(cfg, r.pref)
      ensures Slot(r) != pat
    {
      if Slot(r) == pat {
        forall x | x in rs && Fits(pat, x)
          ensures x == r
        {
          FitsPref(pat, x);
          SlotAlone(cfg, r, x);
        }
        SlotFits(r);
        DeleteFirstGone(rs, pat, r);
      }
    }
  }

  lemma FitsPref(pat: Pattern, x: Rule)
    requires Fits(pat, x)
    ensures x.pref == pat.pref
  {
  }

  lemma SlotFits(r: Rule)
    ensures Fits(Slot(r), r)
  {
  }

  lemma DoneStays(cfg: Config, op: Op, a: Kernel, b: Kernel)
    requires Shrunk(a, b) && Done(cfg, op, a)
    ensures Done(cfg, op, b)
  {
    hide Managed, Swept, Routes;
    RulesShrink(cfg, a.rules, b.rules);
  }

  lemma {:induction false} ClearAll(cfg: Config, cs: seq<Cmd>, e: Env, s: State)
    requires FewProviders(cfg) && Tidy(cfg, s.kernel.rules)
    requires forall c :: c in cs ==> Removing(c)
    ensures Tidy(cfg, RunAll(cs, e, s).kernel.rules) && Shrunk(s.kernel, RunAll(cs, e, s).kernel)
    ensures forall c :: c in cs ==> Done(cfg, c.op, RunAll(cs, e, s).kernel)
    ensures RunAll(cs, e, s) == s.(kernel := RunAll(cs, e, s).kernel)
  {
    hide Managed, Swept, Tidy, Done, Run, Removing, FewProviders;
    if cs != [] {
      var rest, last := cs[..|cs| - 1], cs[|cs| - 1];
      ClearAll(cfg, rest, e, s);
      var mid := RunAll(rest, e, s);
      assert last in cs && cs == rest + [last];
      ClearOne(cfg, last, e, mid);
      forall c | c in rest
        ensures Done(cfg, c.op, Run(last, e, mid).kernel)
      {
        DoneStays(cfg, c.op, mid.kernel, Run(last, e, mid).kernel);
      }
    }
  }

  lemma {:induction false} ProvidersCleared(ps: seq<Provider>)
    ensures forall c :: c in ClearProviders(ps) ==> Removing(c)
    ensures forall p :: p in ps ==> Cmd(Always, Flush(p.number)) in ClearProviders(ps)
    ensures forall r :: IsMarkRule(ps, r) ==> Cmd(Always, DelOne(Slot(r))) in ClearProviders(ps)
  {
    if ps != [] {
      ProvidersCleared(ps[..|ps| - 1]);
      var n := |ps| - 1;
      assert ClearProvider(ps[n], n)[0] == Cmd(Always, Flush(ps[n].number));
      if ps[n].mark != 0 {
        assert ClearProvider(ps[n], n)[1] == Cmd(Always, DelOne(Slot(MarkRule(ps[n], n))));
      }
      forall r | IsMarkRule(ps, r)
        ensures Cmd(Always, DelOne(Slot(r))) in ClearProviders(ps)
      {
        if r.pref - 10000 < n {
          assert IsMarkRule(ps[..n], r);
        }
      }
    }
  }

  lemma {:induction false} PrioritiesSwept(rs: seq<RtRule>)
    ensures forall r :: r in rs ==> r.priority in Priorities(rs)
  {
    if rs != [] {
      PrioritiesSwept(rs[..|rs| - 1]);
    }
  }

  lemma {:induction false} SweepsIn(ps: seq<nat>)
    ensures forall c :: c in Sweeps(ps) ==> Removing(c)
    ensures forall p :: p in ps ==> Cmd(Always, DelAll(p)) in Sweeps(ps)
  {
    if ps != [] {
      SweepsIn(ps[..|ps| - 1]);
    }
  }

  lemma {:induction false} RoutesRemoving(rs: seq<Static>)
    ensures forall c :: c in ClearRoutes(rs) ==> Removing(c)
  {
    if rs != [] {
      RoutesRemoving(rs[..|rs| - 1]);
    }
  }

  lemma DefaultsCleared(cfg: Config)
    ensures forall c :: c in ClearDefaults(cfg) ==> Removing(c)
    ensures DefaultManaged(cfg) ==> Cmd(Always, DelOne(Slot(MAIN_FIRST))) in ClearDefaults(cfg)
    ensures Balanced(cfg) ==> Cmd(Always, DelOne(Slot(BALANCE_RULE))) in ClearDefaults(cfg)
    ensures Balanced(cfg) ==> Cmd(Always, Flush(BALANCE)) in ClearDefaults(cfg)
    ensures HasFallback(cfg) ==> Cmd(Always, Flush(DEFAULT_TABLE)) in ClearDefaults(cfg)
  {
    hide Balanced, HasFallback;
    var d := if DefaultManaged(cfg) then 1 else 0;
    var b := if Balanced(cfg) then 2 else 0;
    if DefaultManaged(cfg) {
      assert ClearDefaults(cfg)[0] == Cmd(Always, DelOne(Slot(MAIN_FIRST)));
    }
    if Balanced(cfg) {
      assert ClearDefaults(cfg)[d] == Cmd(Always, DelOne(Slot(BALANCE_RULE)));
      assert ClearDefaults(cfg)[d + 1] == Cmd(Always, Flush(BALANCE));
    }
    if HasFallback(cfg) {
      assert ClearDefaults(cfg)[d + b] == Cmd(Always, Flush(DEFAULT_TABLE));
    }
  }

  /** The clear half names every managed pref, slot and table. */
  lemma ClearNames(cfg: Config)
    requires Active(cfg)
    ensures forall c :: c in ClearCmds(cfg) ==> Removing(c)
    ensures forall pref :: Swept(cfg, pref) ==> Cmd(Always, DelAll(pref)) in ClearCmds(cfg)
    ensures forall r :: Single(cfg, r) ==> Cmd(Always, DelOne(Slot(r))) in ClearCmds(cfg)
    ensures forall t :: OwnTable(cfg, t) ==> Cmd(Always, Flush(t)) in ClearCmds(cfg)
  {
    hide Balanced, HasFallback, DefaultManaged, ClearProviders, ClearDefaults, ClearRoutes, Sweeps, Priorities,
         IsMarkRule;
    ProvidersCleared(cfg.providers);
    PrioritiesSwept(cfg.rtrules);
    SweepsIn(Priorities(cfg.rtrules));
    DefaultsCleared(cfg);
    RoutesRemoving(cfg.routes);
    var cs := ClearCmds(cfg);
    assert cs[0] == Cmd(Always, DelAll(20000));
    assert forall c :: c in ClearProviders(cfg.providers) ==> c in cs;
    assert forall c :: c in Sweeps(Priorities(cfg.rtrules)) ==> c in cs;
    assert forall c :: c in ClearDefaults(cfg) ==> c in cs;
  }

  lemma {:induction false} KeptNone(cfg: Config, rs: seq<Rule>)
    requires forall r :: r in rs ==> !Managed(cfg, r.pref)
    ensures Kept(cfg, rs) == []
  {
    hide Managed;
    if rs != [] {
      assert rs[0] in rs;
      KeptNone(cfg, rs[1..]);
    }
  }

  /** The clear half empties the managed part, given that single-delete slots
      hold at most one rule. */
  lemma ClearErases(cfg: Config, e: Env, k: Kernel)
    requires FewProviders(cfg) && Tidy(cfg, k.rules)
    ensures Tidy(cfg, RunAll(ClearCmds(cfg), e, Boot(k)).kernel.rules)
    ensures RunAll(ClearCmds(cfg), e, Boot(k)) == Boot(RunAll(ClearCmds(cfg), e, Boot(k)).kernel)
    ensures forall r :: r in RunAll(ClearCmds(cfg), e, Boot(k)).kernel.rules ==> !Managed(cfg, r.pref)
    ensures Kept(cfg, RunAll(ClearCmds(cfg), e, Boot(k)).kernel.rules) == []
    ensures forall t :: OwnTable(cfg, t) ==> Routes(RunAll(ClearCmds(cfg), e, Boot(k)).kernel, t) == map[]
  {
    hide Swept, Single, Routes, ClearCmds, Slot, FewProviders;
    var cs := ClearCmds(cfg);
    if Active(cfg) {
      ClearNames(cfg);
      ClearAll(cfg, cs, e, Boot(k));
      var k' := RunAll(cs, e, Boot(k)).kernel;
      forall r | r in k'.rules
        ensures !Managed(cfg, r.pref)
      {
        assert Swept(cfg, r.pref) ==> Done(cfg, DelAll(r.pref), k') by {
          assert Swept(cfg, r.pref) ==> Cmd(Always, DelAll(r.pref)) in cs;
        }
        assert Single(cfg, r) ==> Done(cfg, DelOne(Slot(r)), k') by {
          assert Single(cfg, r) ==> Cmd(Always, DelOne(Slot(r))) in cs;
        }
      }
      forall t | OwnTable(cfg, t)
        ensures Routes(k', t) == map[]
      {
        assert Cmd(Always, Flush(t)) in cs;
        assert Done(cfg, Flush(t), k');
      }
      KeptNone(cfg, k'.rules);
    } else {
      assert cs == [] by { NoClear(cfg); }
      KeptNone(cfg, k.rules);
    }
  }

  lemma NoClear(cfg: Config)
    requires !Active(cfg)
    ensures ClearCmds(cfg) == []
  {
  }

  // ------------------------------------------------- each single rule added once

  function Adds(cs: seq<Cmd>, r: Rule): nat {
    if cs == [] then 0 else Adds(cs[..|cs| - 1], r) + if cs[|cs| - 1].op == Add(r) then 1 else 0
  }

  lemma {:induction false} AddsPlus(a: seq<Cmd>, b: seq<Cmd>, r: Rule)
    ensures Adds(a + b, r) == Adds(a, r) + Adds(b, r)
  {
    if b == [] {
      assert a + b == a;
    } else {
      assert (a + b)[..|a + b| - 1] == a + b[..|b| - 1];
      AddsPlus(a, b[..|b| - 1], r);
    }
  }

  lemma AddsFour(a: Cmd, b: Cmd, c: Cmd, d: Cmd, r: Rule)
    requires !b.op.Add? && !c.op.Add? && !d.op.Add?
    ensures Adds([a], r) == (if a.op == Add(r) then 1 else 0)
    ensures Adds([b, c, d], r) == 0 && Adds([b, c], r) == 0
  {
    assert [b, c, d][..2] == [b, c] && [b, c][..1] == [b] && [b][..0] == [] && Adds([b], r) == 0;
    assert [a][..0] == [] && Adds([], r) == 0;
  }

  lemma OneProviderAdds(p: Provider, n: nat, r: Rule)
    ensures Adds(BuildProvider(p, n), r) == if p.mark != 0 && r == MarkRule(p, n) then 1 else 0
  {
    hide Adds;
    var u := IfUsable(p.name, p.iface);
    var a := Cmd(u, Add(MarkRule(p, n)));
    var b := Cmd(u, Replace(MAIN, Key(p.gateway, 0), [Hop(None, Some(p.iface), 1)]));
    var c := Cmd(u, Replace(p.number, Key(p.gateway, 0), [Hop(None, Some(p.iface), 1)]));
    var d := Cmd(u, Replace(p.number, Key("default", 0), [Hop(Some(p.gateway), Some(p.iface), 1)]));
    var f := Cmd(u, AddSources(p.iface, 20000, p.number));
    var head, tail := if p.mark == 0 then [] else [a], if p.loose then [] else [f];
    assert BuildProvider(p, n) == head + [b, c, d] + tail;
    AddsFour(a, b, c, d, r);
    AddsFour(f, b, c, d, r);
    NoAdds([], r);
    AddsPlus(head, [b, c, d], r);
    AddsPlus(head + [b, c, d], tail, r);
  }

  lemma {:induction false} ProviderAdds(ps: seq<Provider>, r: Rule)
    ensures Adds(BuildProviders(ps), r) == if IsMarkRule(ps, r) then 1 else 0
  {
    hide BuildProvider;
    if ps != [] {
      var n := |ps| - 1;
      ProviderAdds(ps[..n], r);
      AddsPlus(BuildProviders(ps[..n]), BuildProvider(ps[n], n), r);
      OneProviderAdds(ps[n], n, r);
    }
  }

  lemma {:induction false} RtRuleAdds(ps: seq<Provider>, rs: seq<RtRule>, r: Rule)
    requires forall x :: x in rs ==> x.priority != r.pref
    ensures Adds(BuildRtRules(ps, rs), r) == 0
  {
    hide TableOf;
    if rs != [] {
      var x := rs[|rs| - 1];
      assert x in rs;
      RtRuleAdds(ps, rs[..|rs| - 1], r);
      var two := BuildRtRule(ps, x);
      AddsPlus(BuildRtRules(ps, rs[..|rs| - 1]), two, r);
      assert two == [two[0], two[1]];
      assert Adds(two[..1], r) == Adds(two[..1][..0], r);
    }
  }

  lemma {:induction false} NoAdds(cs: seq<Cmd>, r: Rule)
    requires forall c :: c in cs ==> !c.op.Add?
    ensures Adds(cs, r) == 0
  {
    if cs != [] {
      NoAdds(cs[..|cs| - 1], r);
      assert cs[|cs| - 1] in cs;
    }
  }

  lemma {:induction false} HopsAddNothing(ps: seq<Provider>)
    ensures forall c :: c in HopCmds(ps) + FallbackCmds(ps) ==> !c.op.Add? && !c.op.AddSources? && !c.op.AddPinned?
  {
    if ps != [] {
      HopsAddNothing(ps[..|ps| - 1]);
    }
  }

  lemma {:induction false} RoutesAddNothing(rs: seq<Static>)
    ensures forall c :: c in BuildRoutes(rs) ==> !c.op.Add? && !c.op.AddSources? && !c.op.AddPinned?
  {
    if rs != [] {
      RoutesAddNothing(rs[..|rs| - 1]);
    }
  }

  lemma InstallAdds(r: Rule)
    ensures Adds(InstallCmds(), r) == (if r == MAIN_FIRST then 1 else 0) + (if r == BALANCE_RULE then 1 else 0)
  {
    var cs := InstallCmds();
    assert cs == [cs[0]] + ([cs[1], cs[2], cs[3]] + ([cs[4]] + [cs[5]]));
    AddsPlus([cs[0]], [cs[1], cs[2], cs[3]] + ([cs[4]] + [cs[5]]), r);
    AddsPlus([cs[1], cs[2], cs[3]], [cs[4]] + [cs[5]], r);
    AddsPlus([cs[4]], [cs[5]], r);
    AddsFour(cs[0], cs[1], cs[2], cs[3], r);
    AddsFour(cs[4], cs[1], cs[2], cs[3], r);
    AddsFour(cs[5], cs[1], cs[2], cs[3], r);
  }

  lemma DefaultAdds(cfg: Config, r: Rule)
    ensures Adds(BuildDefaults(cfg), r) ==
            if !DefaultManaged(cfg) then 0 else Adds(InstallCmds(), r)
  {
    hide DefaultManaged, HopCmds, FallbackCmds, InstallCmds;
    var ps := cfg.providers;
    var pre := [Cmd(Always, ClearVars)] + HopCmds(ps) + FallbackCmds(ps);
    HopsAddNothing(ps);
    assert forall c :: c in pre ==> c in HopCmds(ps) + FallbackCmds(ps) || c == Cmd(Always, ClearVars);
    NoAdds(pre, r);
    AddsPlus(pre, InstallCmds(), r);
  }

  lemma BuildAdds(cfg: Config, r: Rule)
    requires FewProviders(cfg) && !Swept(cfg, r.pref)
    ensures Adds(BuildCmds(cfg), r) <= 1
    ensures Adds(BuildCmds(cfg), r) > 0 && Managed(cfg, r.pref) ==> Single(cfg, r)
  {
    hide DefaultManaged, BuildProviders, BuildRtRules, BuildDefaults, BuildRoutes, InstallCmds, Adds;
    if Active(cfg) {
      var ps := cfg.providers;
      var a, b, c, d := BuildProviders(ps), BuildRtRules(ps, cfg.rtrules), BuildDefaults(cfg), BuildRoutes(cfg.routes);
      ProviderAdds(ps, r);
      RtRuleAdds(ps, cfg.rtrules, r);
      DefaultAdds(cfg, r);
      InstallAdds(r);
      RoutesAddNothing(cfg.routes);
      NoAdds(d, r);
      AddsPlus(a, b, r);
      AddsPlus(a + b, c, r);
      AddsPlus(a + b + c, d, r);
    } else {
      NoAdds([], r);
    }
  }

  /** Rules of a swept pref may be added freely. */
  predicate AddsSwept(cfg: Config, c: Cmd) {
    && (c.op.AddSources? ==> Swept(cfg, c.op.pref))
    && (c.op.AddPinned? ==> Swept(cfg, c.op.rule.pref))
  }

  lemma {:induction false} SourcePrefs(addrs: seq<string>, pref: nat, t: nat)
    ensures forall r :: r in SourceRules(addrs, pref, t) ==> r.pref == pref
  {
    if addrs != [] {
      SourcePrefs(addrs[..|addrs| - 1], pref, t);
    }
  }

  lemma TablesOnly(op: Op, e: Env, s: State)
    ensures !ChangesRules(op) ==> Perform(op, e, s).kernel.rules == s.kernel.rules
  {
    hide Routes, ReplaceAll, DeletePref, DeleteFirst, SourceRules, HopIs, NoDefaults;
  }

  lemma PerformAdds(cfg: Config, c: Cmd, e: Env, s: State, r: Rule)
    requires AddsSwept(cfg, c) && !Swept(cfg, r.pref)
    ensures multiset(Run(c, e, s).kernel.rules)[r] <= multiset(s.kernel.rules)[r] + if c.op == Add(r) then 1 else 0
  {
    hide Swept, Fits, NoDefaults, HopIs, Routes, ReplaceAll, DeletePref, DeleteFirst, SourceRules, Holds, WithTable;
    var rs := s.kernel.rules;
    TablesOnly(c.op, e, s);
    match c.op
    case DelAll(pref) => DeletePrefGone(rs, pref);
    case DelOne(pat) => DeleteFirstGone(rs, pat, r);
    case AddSources(i, pref, t) =>
      SourcePrefs(Addresses(e, i), pref, t);
      assert pref != r.pref;
    case DelPinned(i, pat) =>
      if Addresses(e, i) != [] {
        DeleteFirstGone(rs, pat.(from := Some(Addresses(e, i)[0])), r);
      }
    case _ =>
  }

  lemma {:induction false} RunAllAdds(cfg: Config, cs: seq<Cmd>, e: Env, s: State, r: Rule)
    requires (forall c :: c in cs ==> AddsSwept(cfg, c)) && !Swept(cfg, r.pref)
    ensures multiset(RunAll(cs, e, s).kernel.rules)[r] <= multiset(s.kernel.rules)[r] + Adds(cs, r)
  {
    hide Swept, AddsSwept, Run;
    if cs != [] {
      RunAllAdds(cfg, cs[..|cs| - 1], e, s, r);
      assert cs[|cs| - 1] in cs;
      PerformAdds(cfg, cs[|cs| - 1], e, RunAll(cs[..|cs| - 1], e, s), r);
    }
  }

  lemma {:induction false} ProvidersAddSwept(cfg: Config, ps: seq<Provider>)
    ensures forall c :: c in BuildProviders(ps) ==> AddsSwept(cfg, c)
  {
    if ps != [] {
      ProvidersAddSwept(cfg, ps[..|ps| - 1]);
    }
  }

  lemma {:induction false} RtRulesAddSwept(cfg: Config, ps: seq<Provider>, rs: seq<RtRule>)
    requires forall r :: r in rs ==> r in cfg.rtrules
    ensures forall c :: c in BuildRtRules(ps, rs) ==> AddsSwept(cfg, c)
  {
    hide TableOf;
    if rs != [] {
      var r := rs[|rs| - 1];
      assert r in rs;
      assert Swept(cfg, r.priority);
      RtRulesAddSwept(cfg, ps, rs[..|rs| - 1]);
    }
  }

  lemma BuildAddsSwept(cfg: Config)
    ensures forall c :: c in BuildCmds(cfg) ==> AddsSwept(cfg, c)
  {
    hide Swept, BuildProviders, BuildRtRules, BuildRoutes, HopCmds, FallbackCmds, DefaultManaged;
    ProvidersAddSwept(cfg, cfg.providers);
    RtRulesAddSwept(cfg, cfg.providers, cfg.rtrules);
    HopsAddNothing(cfg.providers);
    assert forall c :: c in HopCmds(cfg.providers) ==> c in HopCmds(cfg.providers) + FallbackCmds(cfg.providers);
    assert forall c :: c in FallbackCmds(cfg.providers) ==> c in HopCmds(cfg.providers) + FallbackCmds(cfg.providers);
    assert forall c :: c in InstallCmds() ==> AddsSwept(cfg, c);
    RoutesAddNothing(cfg.routes);
  }

  /** Every rebuild keeps single-delete slots at one rule. */
  lemma RebuildTidy(cfg: Config, e: Env, k: Kernel)
    requires FewProviders(cfg) && Tidy(cfg, k.rules)
    ensures Tidy(cfg, Rebuild(cfg, e, k).rules)
  {
    hide Managed, Swept, Single, BuildCmds, ClearCmds, FewProviders, OwnTable, Kept;
    ClearErases(cfg, e, k);
    BuildAddsSwept(cfg);
    var s := RunAll(ClearCmds(cfg), e, Boot(k));
    var rs := Rebuild(cfg, e, k).rules;
    forall r | r in rs && Managed(cfg, r.pref) && !Swept(cfg, r.pref)
      ensures Single(cfg, r) && multiset(rs)[r] <= 1
    {
      RunAllAdds(cfg, BuildCmds(cfg), e, s, r);
      BuildAdds(cfg, r);
      assert r !in s.kernel.rules;
      assert r in multiset(rs);
    }
  }

  /** The managed part after a rebuild is a function of the configuration, the
      usable providers and the addresses. */
  lemma Determined(cfg: Config, d: Env, e: Env, a: Kernel, b: Kernel)
    requires FewProviders(cfg) && Tidy(cfg, a.rules) && Tidy(cfg, b.rules) && SameInputs(cfg, d, e)
    ensures SameManaged(cfg, Rebuild(cfg, d, a), Rebuild(cfg, e, b))
  {
    hide Managed, OwnTable, Tidy, Kept, Routes, BuildCmds, ClearCmds, FewProviders;
    ClearErases(cfg, d, a);
    ClearErases(cfg, e, b);
    BuildGuards(cfg, d, e);
    RunAllSame(cfg, BuildCmds(cfg), d, e, RunAll(ClearCmds(cfg), d, Boot(a)), RunAll(ClearCmds(cfg), e, Boot(b)));
  }

  // --------------------------------------------------------------- histories

  /** `clear_routing`: clear, then restore. */
  function Stopped(cfg: Config, e: Env, k: Kernel): Kernel {
    RunAll(RestoreCmds(cfg), e, RunAll(ClearCmds(cfg), e, Boot(k))).kernel
  }

  /** A start, an enable, a disable or a link change reroutes; a stop restores;
      and anyone may change rules and tables that are not managed. */
  datatype Event = Reroute(env: Env) | Stop(env: Env) | Outside

  ghost predicate Step(cfg: Config, k: Kernel, ev: Event, k': Kernel) {
    match ev
    case Reroute(e) => k' == Rebuild(cfg, e, k)
    case Stop(e) => k' == Stopped(cfg, e, k)
    case Outside => forall r: Rule :: Managed(cfg, r.pref) ==> multiset(k'.rules)[r] == multiset(k.rules)[r]
  }

  ghost predicate History(cfg: Config, ks: seq<Kernel>, evs: seq<Event>) {
    && |ks| == |evs| + 1
    && forall i :: 0 <= i < |evs| ==> Step(cfg, ks[i], evs[i], ks[i + 1])
  }

  lemma StopTidy(cfg: Config, e: Env, k: Kernel)
    requires FewProviders(cfg) && Tidy(cfg, k.rules)
    ensures Tidy(cfg, Stopped(cfg, e, k).rules)
  {
    hide Swept, Single, ClearCmds, DefaultManaged, Balanced, Kept, OwnTable, ReplaceAll, Active;
    ClearErases(cfg, e, k);
    var s := RunAll(ClearCmds(cfg), e, Boot(k));
    var cs := RestoreCmds(cfg);
    assert cs == [] || cs == [Cmd(Always, RestoreSaved)]
        || cs == [Cmd(Always, Add(MAIN_RULE)), Cmd(Always, RestoreSaved)];
    if |cs| == 2 {
      assert cs[..1] == [Cmd(Always, Add(MAIN_RULE))] && cs[..1][..0] == [];
      assert RunAll(cs[..1], e, s) == Run(cs[0], e, s);
      assert Stopped(cfg, e, k).rules == s.kernel.rules + [MAIN_RULE];
    } else if |cs| == 1 {
      assert cs[..0] == [] && RunAll(cs[..0], e, s) == s;
      assert Stopped(cfg, e, k) == Run(cs[0], e, s).kernel;
      assert Stopped(cfg, e, k).rules == s.kernel.rules;
    }
  }

  lemma StepTidy(cfg: Config, k: Kernel, ev: Event, k': Kernel)
    requires FewProviders(cfg) && Tidy(cfg, k.rules) && Step(cfg, k, ev, k')
    ensures Tidy(cfg, k'.rules)
  {
    hide Managed, Swept, Single, Rebuild, Stopped;
    match ev
    case Reroute(e) => RebuildTidy(cfg, e, k);
    case Stop(e) => StopTidy(cfg, e, k);
    case Outside =>
      forall r | r in k'.rules && Managed(cfg, r.pref) && !Swept(cfg, r.pref)
        ensures Single(cfg, r) && multiset(k'.rules)[r] <= 1
      {
        assert r in multiset(k'.rules);
        assert r in multiset(k.rules);
      }
  }

  lemma {:induction false} HistoryTidy(cfg: Config, ks: seq<Kernel>, evs: seq<Event>)
    requires FewProviders(cfg) && History(cfg, ks, evs) && Tidy(cfg, ks[0].rules)
    ensures Tidy(cfg, ks[|evs|].rules)
  {
    hide Tidy, Step;
    if evs != [] {
      var n := |evs| - 1;
      HistoryTidy(cfg, ks[..n + 1], evs[..n]);
      assert Step(cfg, ks[n], evs[n], ks[n + 1]);
      StepTidy(cfg, ks[n], evs[n], ks[n + 1]);
    }
  }

  /** No history of enables, disables, flaps and stops leaves a residue: the
      next rebuild gives the managed state it would give on an empty kernel. */
  lemma NoResidue(cfg: Config, ks: seq<Kernel>, evs: seq<Event>, e: Env)
    requires FewProviders(cfg) && History(cfg, ks, evs) && Tidy(cfg, ks[0].rules)
    ensures SameManaged(cfg, Rebuild(cfg, e, ks[|evs|]), Rebuild(cfg, e, Kernel([], map[])))
  {
    hide Step, Rebuild, SameManaged, Managed;
    HistoryTidy(cfg, ks, evs);
    Determined(cfg, e, e, ks[|evs|], Kernel([], map[]));
  }

  function Disabled(e: Env, name: string): Env {
    e.(down := e.down + {name})
  }

  function Enabled(e: Env, name: string): Env {
    e.(down := e.down - {name})
  }

  /** Rebuilding twice is rebuilding once, and disabling a provider and
      enabling it again restores what was there. */
  lemma DisableThenEnable(cfg: Config, e: Env, name: string, k: Kernel)
    requires FewProviders(cfg) && Tidy(cfg, k.rules) && name !in e.down
    ensures SameManaged(cfg, Rebuild(cfg, e, Rebuild(cfg, e, k)), Rebuild(cfg, e, k))
    ensures SameManaged(cfg,
              Rebuild(cfg, Enabled(Disabled(e, name), name), Rebuild(cfg, Disabled(e, name), Rebuild(cfg, e, k))),
              Rebuild(cfg, e, k))
  {
    hide Rebuild, SameManaged, Managed, Tidy, SameInputs;
    var d := Disabled(e, name);
    assert Enabled(d, name) == e;
    RebuildTidy(cfg, e, k);
    RebuildTidy(cfg, d, Rebuild(cfg, e, k));
    SameInputsSelf(cfg, e);
    Determined(cfg, e, e, Rebuild(cfg, e, k), k);
    Determined(cfg, e, e, Rebuild(cfg, d, Rebuild(cfg, e, k)), k);
  }

  lemma SameInputsSelf(cfg: Config, e: Env)
    ensures SameInputs(cfg, e, e)
  {
  }
}
