/** The emitted filter table gives every packet the verdict the configuration
    means. */
module EmitDispatch {
  import opened Wrappers
  import opened Nft
  import opened Zones
  import opened Emit
  import opened EmitRules
  import opened EmitTable
  import opened EmitLayers

  /** No physical interface is claimed whole by two zones, or twice by one. */
  ghost predicate PhysicalsOk(cfg: Config) {
    forall i, j :: 0 <= i < j < |cfg.interfaces| && cfg.interfaces[i].zone.Some? && cfg.interfaces[j].zone.Some?
      ==> cfg.interfaces[i].physical != cfg.interfaces[j].physical
  }

  /** A table the theorem speaks about: the emitted one, and it loads. */
  ghost predicate Compiled(cfg: Config, t: Table) {
    NamesOk(cfg) && PhysicalsOk(cfg) && Linked(cfg, t) && Layered(t) && IcmpsDeclared(cfg)
  }

  /** Calling the chain of a pair is the meaning of the pair, whether the chain
      is the pair's own or shared. */
  lemma CallPair(cfg: Config, t: Table, z1: string, z2: string, p: Packet)
    requires Compiled(cfg, t) && (z1, z2) in Pairs(cfg)
    ensures ChainFor(cfg, z1, z2) in t && Call(t, ChainFor(cfg, z1, z2), p) == PairMeaning(cfg, z1, z2, p)
  {
    hide PairLines, PolicyLines, PairMeaning, ChainFor, Pairs, Layered, Helpers, HooksLinked, IcmpsDeclared;
    var x := (z1, z2);
    assert x in Pairs(cfg);
    var pol := PolicyFor(cfg, z1, z2).value;
    assert Known(cfg, pol) by { FirstPolicyKnown(cfg.policies, z1, z2); }
    if Shares(cfg, z1, z2) {
      SharesBy(cfg, z1, z2);
      PolicyLinesExact(cfg, t, z1, z2, pol, p);
    } else {
      PairLinesExact(cfg, t, z1, z2, pol, p);
    }
  }

  // --------------------------------------------------------- one-sided hooks

  ghost function IfaceOf(hook: Hook, p: Packet): string {
    if hook == Input then p.iif else p.oif
  }

  lemma SideCall(cfg: Config, t: Table, hook: Hook, c: Claim, p: Packet)
    requires Compiled(cfg, t) && Made(cfg, c)
    ensures var ch := SideChain(cfg, hook, c.zone);
      ch in t && t[ch].level == 2 && Call(t, ch, p) == ZoneMeaning(cfg, hook, c.zone, p)
  {
    hide Pairs, ChainFor, PairMeaning, Layered, Helpers, HooksLinked, IcmpsDeclared, NetZones, LinesFor, PolicyFor;
    PairsIn(cfg);
    var x := if hook == Input then (c.zone, cfg.fw) else (cfg.fw, c.zone);
    assert x in Pairs(cfg);
    CallPair(cfg, t, x.0, x.1, p);
  }

  lemma SideTestsExact(hook: Hook, c: Claim, p: Packet)
    requires hook != Forward
    ensures SatAll(SideTests(hook, c), p) <==> Holds(hook, c, p)
  {
    var ts := SideTests(hook, c);
    assert Sat(ts[0], p) <==> c.iface == IfaceOf(hook, p);
    if c.nets.Some? {
      assert |ts| == 2 && (SatAll(ts, p) <==> Sat(ts[0], p) && Sat(ts[1], p));
    } else {
      assert |ts| == 1 && (SatAll(ts, p) <==> Sat(ts[0], p));
    }
  }

  /** The ordered rule of a claim offers the packet to that claim. */
  lemma SideRule(cfg: Config, t: Table, hook: Hook, c: Claim, p: Packet)
    requires Compiled(cfg, t) && Made(cfg, c) && hook != Forward
    ensures Yields(t, [Rule(SideTests(hook, c), Jump(SideChain(cfg, hook, c.zone)))], 3, p,
              if Holds(hook, c, p) then ZoneMeaning(cfg, hook, c.zone, p) else None)
  {
    hide ZoneMeaning, SideTests, SideChain, Linked, NamesOk, PhysicalsOk, Layered, IcmpsDeclared, Made;
    SideCall(cfg, t, hook, c, p);
    SideTestsExact(hook, c, p);
    YieldsRule(t, SideTests(hook, c), Jump(SideChain(cfg, hook, c.zone)), 3, p);
  }

  lemma SecondsLast(s: seq<(nat, Line)>, x: (nat, Line))
    ensures Seconds(s + [x]) == Seconds(s) + [x.1]
  {
  }

  lemma NarrowSnoc(cs: seq<Claim>, c: Claim, narrow: bool)
    ensures Narrow(cs + [c], narrow) == if c.nets.Some? == narrow then Narrow(cs, narrow) + [c] else Narrow(cs, narrow)
  {
    assert (cs + [c])[..|cs|] == cs;
  }

  lemma OfferSnoc(cfg: Config, hook: Hook, cs: seq<Claim>, c: Claim, p: Packet)
    ensures Offer(cfg, hook, cs + [c], p)
         == OrElse(Offer(cfg, hook, cs, p), if Holds(hook, c, p) then ZoneMeaning(cfg, hook, c.zone, p) else None)
  {
    hide Holds, ZoneMeaning, OrElse;
    assert (cs + [c])[..|cs|] == cs;
  }

  /** With no claims there is nothing to emit and nothing to offer. */
  lemma NoClaims(cfg: Config, hook: Hook, p: Packet)
    ensures SideOrdered(cfg, hook, []) == [] && (forall r :: Keep([], r) == []) && Seconds([]) == []
    ensures (forall b :: Narrow([], b) == []) && Offer(cfg, hook, [], p) == None
  {
  }

  lemma Unpack(cfg: Config, t: Table)
    requires Compiled(cfg, t)
    ensures Layered(t)
  {
  }

  /** Address-scoped rules offer the packet to the address-scoped claims. */
  lemma {:induction false} NarrowRules(cfg: Config, t: Table, hook: Hook, cs: seq<Claim>, p: Packet)
    requires Compiled(cfg, t) && hook != Forward && forall c :: c in cs ==> Made(cfg, c)
    ensures Yields(t, Seconds(Keep(SideOrdered(cfg, hook, cs), 0)), 3, p, Offer(cfg, hook, Narrow(cs, true), p))
  {
    hide Compiled, Made, SideTests, SideChain, Yields, Holds, ZoneMeaning, Scoped, Keep, Narrow, Offer, SideOrdered,
         Seconds;
    if cs == [] {
      Unpack(cfg, t);
      NoClaims(cfg, hook, p);
      YieldsNothing(t, 3, p);
    } else {
      var pre, c := cs[..|cs| - 1], cs[|cs| - 1];
      assert c in cs && cs == pre + [c];
      NarrowRules(cfg, t, hook, pre, p);
      NarrowSnoc(pre, c, true);
      SideSnoc(cfg, hook, pre, c);
      var s := SideOrdered(cfg, hook, pre);
      var line := Rule(SideTests(hook, c), Jump(SideChain(cfg, hook, c.zone)));
      if c.nets.Some? {
        SideRule(cfg, t, hook, c, p);
        KeepSnoc(s, (0, line), 0);
        SecondsLast(Keep(s, 0), (0, line));
        OfferSnoc(cfg, hook, Narrow(pre, true), c, p);
        YieldsBoth(t, Seconds(Keep(s, 0)), [line], 3, p, Offer(cfg, hook, Narrow(pre, true), p),
                   if Holds(hook, c, p) then ZoneMeaning(cfg, hook, c.zone, p) else None);
      } else {
        KeepSnoc(s, (1, line), 0);
        assert s + [] == s;
      }
    }
  }

  /** Whole-interface rules, which only scoped interfaces have. */
  lemma {:induction false} WholeRules(cfg: Config, t: Table, hook: Hook, cs: seq<Claim>, p: Packet)
    requires Compiled(cfg, t) && hook != Forward && forall c :: c in cs ==> Made(cfg, c)
    ensures Yields(t, Seconds(Keep(SideOrdered(cfg, hook, cs), 1)), 3, p,
              if Scoped(cfg, IfaceOf(hook, p)) then Offer(cfg, hook, Narrow(cs, false), p) else None)
  {
    hide Compiled, Made, SideTests, SideChain, Yields, ZoneMeaning, Scoped, Keep, Narrow, Offer, SideOrdered, Seconds;
    if cs == [] {
      Unpack(cfg, t);
      NoClaims(cfg, hook, p);
      YieldsNothing(t, 3, p);
    } else {
      var pre, c := cs[..|cs| - 1], cs[|cs| - 1];
      assert c in cs && cs == pre + [c];
      WholeRules(cfg, t, hook, pre, p);
      NarrowSnoc(pre, c, false);
      SideSnoc(cfg, hook, pre, c);
      var s := SideOrdered(cfg, hook, pre);
      var line := Rule(SideTests(hook, c), Jump(SideChain(cfg, hook, c.zone)));
      assert s + [] == s;
      if c.nets.Some? {
        KeepSnoc(s, (0, line), 1);
      } else {
        OfferSnoc(cfg, hook, Narrow(pre, false), c, p);
        if Scoped(cfg, c.iface) {
          SideRule(cfg, t, hook, c, p);
          KeepSnoc(s, (1, line), 1);
          SecondsLast(Keep(s, 1), (1, line));
          YieldsBoth(t, Seconds(Keep(s, 1)), [line], 3, p,
                     if Scoped(cfg, IfaceOf(hook, p)) then Offer(cfg, hook, Narrow(pre, false), p) else None,
                     if Holds(hook, c, p) then ZoneMeaning(cfg, hook, c.zone, p) else None);
        }
      }
    }
  }

  lemma {:induction false} NoHighRank(cfg: Config, hook: Hook, cs: seq<Claim>)
    ensures Keep(SideOrdered(cfg, hook, cs), 2) == []
  {
    hide SideTests, SideChain, Scoped, Keep, SideOrdered;
    if cs == [] {
      NoSideLines(cfg, hook);
    } else {
      var pre, c := cs[..|cs| - 1], cs[|cs| - 1];
      assert cs == pre + [c];
      NoHighRank(cfg, hook, pre);
      SideSnoc(cfg, hook, pre, c);
      var s := SideOrdered(cfg, hook, pre);
      assert s + [] == s;
      KeepSnoc(s, (if c.nets.Some? then 0 else 1, Rule(SideTests(hook, c), Jump(SideChain(cfg, hook, c.zone)))), 2);
    }
  }

  lemma NoSideLines(cfg: Config, hook: Hook)
    ensures SideOrdered(cfg, hook, []) == [] && forall r :: Keep([], r) == []
  {
  }

  /** No address-scoped claim holds on an unscoped interface. */
  lemma {:induction false} NarrowSilent(cfg: Config, hook: Hook, cs: seq<Claim>, p: Packet)
    requires hook != Forward && !Scoped(cfg, IfaceOf(hook, p)) && forall c :: c in cs ==> Made(cfg, c)
    ensures Offer(cfg, hook, Narrow(cs, true), p) == None
  {
    hide ZoneMeaning, Scoped, NetZones, Owned;
    if cs != [] {
      var pre, c := cs[..|cs| - 1], cs[|cs| - 1];
      assert c in cs;
      NarrowSilent(cfg, hook, pre, p);
      if c.nets.Some? {
        assert Narrow(cs, true) == Narrow(pre, true) + [c];
      } else {
        assert Narrow(cs, true) == Narrow(pre, true);
      }
    }
  }

  /** Whole claims on one interface are one claim. */
  lemma WholeUnique(cfg: Config, c: Claim, d: Claim)
    requires PhysicalsOk(cfg) && Made(cfg, c) && Made(cfg, d)
    requires c.nets.None? && d.nets.None? && c.iface == d.iface
    ensures c == d
  {
    hide NetZones;
    var i :| 0 <= i < |cfg.interfaces| && cfg.interfaces[i].zone == Some(c.zone)
        && cfg.interfaces[i].physical == c.iface;
    var j :| 0 <= j < |cfg.interfaces| && cfg.interfaces[j].zone == Some(d.zone)
        && cfg.interfaces[j].physical == d.iface;
  }

  /** Offering to whole claims: the one that holds decides, if there is one. */
  lemma {:induction false} WholeOffer(cfg: Config, hook: Hook, cs: seq<Claim>, c: Claim, p: Packet)
    requires PhysicalsOk(cfg) && hook != Forward && forall d :: d in cs ==> Made(cfg, d)
    requires Made(cfg, c) && c.nets.None? && c.iface == IfaceOf(hook, p)
    ensures Offer(cfg, hook, Narrow(cs, false), p) == if c in cs then ZoneMeaning(cfg, hook, c.zone, p) else None
  {
    hide ZoneMeaning, PhysicalsOk, Made;
    if cs != [] {
      var pre, d := cs[..|cs| - 1], cs[|cs| - 1];
      assert d in cs && cs == pre + [d];
      WholeOffer(cfg, hook, pre, c, p);
      if d.nets.None? {
        assert Narrow(cs, false) == Narrow(pre, false) + [d];
        if d.iface == c.iface {
          WholeUnique(cfg, c, d);
        }
      } else {
        assert Narrow(cs, false) == Narrow(pre, false);
      }
    }
  }

  lemma {:induction false} WholeSilent(cfg: Config, hook: Hook, cs: seq<Claim>, p: Packet)
    requires hook != Forward && forall c :: c in cs && c.nets.None? ==> c.iface != IfaceOf(hook, p)
    ensures Offer(cfg, hook, Narrow(cs, false), p) == None
  {
    hide ZoneMeaning;
    if cs != [] {
      var pre, c := cs[..|cs| - 1], cs[|cs| - 1];
      assert c in cs;
      WholeSilent(cfg, hook, pre, p);
      if c.nets.None? {
        assert Narrow(cs, false) == Narrow(pre, false) + [c];
      } else {
        assert Narrow(cs, false) == Narrow(pre, false);
      }
    }
  }

  lemma {:induction false} SideEntriesIn(cfg: Config, hook: Hook, cs: seq<Claim>)
    ensures forall e :: e in SideEntries(cfg, hook, cs) <==>
              exists c :: c in cs && Mapped(cfg, c) && e == (c.iface, SideChain(cfg, hook, c.zone))
  {
    hide Mapped, SideChain;
    if cs != [] {
      var pre, c := cs[..|cs| - 1], cs[|cs| - 1];
      assert cs == pre + [c];
      SideEntriesIn(cfg, hook, pre);
    }
  }

  /** The verdict map sends the packet to the whole claim of its interface. */
  lemma MapRules(cfg: Config, t: Table, hook: Hook, cs: seq<Claim>, p: Packet)
    requires Compiled(cfg, t) && hook != Forward && forall c :: c in cs ==> Made(cfg, c)
    ensures Yields(t, MapLine(hook, SideEntries(cfg, hook, cs)), 3, p,
              if Scoped(cfg, IfaceOf(hook, p)) then None else Offer(cfg, hook, Narrow(cs, false), p))
  {
    hide Linked, NamesOk, PhysicalsOk, Layered, IcmpsDeclared, Made, ZoneMeaning, SideChain, Scoped, Offer, Narrow,
         SideEntries;
    var es, key := SideEntries(cfg, hook, cs), IfaceOf(hook, p);
    SideEntriesIn(cfg, hook, cs);
    LookupIn(es, key);
    forall i | 0 <= i < |es| ensures StmtOk(t, Jump(es[i].1), 3) {
      assert es[i] in es;
      var c :| c in cs && Mapped(cfg, c) && es[i] == (c.iface, SideChain(cfg, hook, c.zone));
      SideCall(cfg, t, hook, c, p);
    }
    if es == [] {
      YieldsNothing(t, 3, p);
    } else {
      EvalOne(t, MapLine(hook, es)[0], 3, p);
    }
    if Lookup(es, key).Some? {
      var e := (key, Lookup(es, key).value);
      assert e in es;
      var c :| c in cs && Mapped(cfg, c) && e == (c.iface, SideChain(cfg, hook, c.zone));
      SideCall(cfg, t, hook, c, p);
      WholeOffer(cfg, hook, cs, c, p);
    } else if !Scoped(cfg, key) {
      forall c | c in cs && c.nets.None? ensures c.iface != key {
        var e := (c.iface, SideChain(cfg, hook, c.zone));
        if Mapped(cfg, c) {
          assert e in es;
        }
      }
      WholeSilent(cfg, hook, cs, p);
    }
  }

  lemma SideExact(cfg: Config, t: Table, hook: Hook, p: Packet)
    requires Compiled(cfg, t) && hook != Forward
    ensures var cs := ClaimsOf(cfg, NetZones(cfg));
      Yields(t, SideDispatch(cfg, hook), 3, p,
             OrElse(Offer(cfg, hook, Narrow(cs, true), p), Offer(cfg, hook, Narrow(cs, false), p)))
  {
    hide Compiled, Yields, Made, Offer, Narrow, NetZones, ClaimsOf, SideEntries, SideOrdered, SortByRank, Keep,
         MapLine, Scoped, HookLine;
    var cs := ClaimsOf(cfg, NetZones(cfg));
    ClaimsMade(cfg, NetZones(cfg));
    MapRules(cfg, t, hook, cs, p);
    NarrowRules(cfg, t, hook, cs, p);
    WholeRules(cfg, t, hook, cs, p);
    NoHighRank(cfg, hook, cs);
    assert NamesOk(cfg) by { UnpackNames(cfg, t); }
    SideOrderedJump(cfg, hook, cs);
    var s := SideOrdered(cfg, hook, cs);
    SortedLines(s);
    var narrow, whole := Offer(cfg, hook, Narrow(cs, true), p), Offer(cfg, hook, Narrow(cs, false), p);
    var scoped := Scoped(cfg, IfaceOf(hook, p));
    if !scoped {
      NarrowSilent(cfg, hook, cs, p);
    }
    var a, b, m := Seconds(Keep(s, 0)), Seconds(Keep(s, 1)), MapLine(hook, SideEntries(cfg, hook, cs));
    YieldsBoth(t, m, a, 3, p, if scoped then None else whole, narrow);
    YieldsBoth(t, m + a, b, 3, p, OrElse(if scoped then None else whole, narrow), if scoped then whole else None);
    assert SideDispatch(cfg, hook) == m + a + b;
  }

  lemma UnpackNames(cfg: Config, t: Table)
    requires Compiled(cfg, t)
    ensures NamesOk(cfg) && PhysicalsOk(cfg)
  {
  }

  // ------------------------------------------------------------ forward hook

  /** Neither interface of the packet is scoped, so only verdict maps can match. */
  ghost predicate Plain(cfg: Config, p: Packet) {
    !Scoped(cfg, p.iif) && !Scoped(cfg, p.oif)
  }

  ghost predicate PairHolds(c: (Claim, Claim), p: Packet) {
    HoldsFrom(c.0, p) && HoldsTo(c.1, p)
  }

  lemma PairCall(cfg: Config, t: Table, c: (Claim, Claim), p: Packet)
    requires Compiled(cfg, t) && MadePair(cfg, c)
    ensures var ch := PairChain(cfg, c);
      ch in t && t[ch].level == 2 && Call(t, ch, p) == PairMeaning(cfg, c.0.zone, c.1.zone, p)
  {
    hide Pairs, ChainFor, PairMeaning, Layered, Helpers, HooksLinked, IcmpsDeclared, NetZones, LinesFor, PolicyFor,
         Made, Dispatched;
    PairJump(cfg, c);
    assert (c.0.zone, c.1.zone) in Pairs(cfg);
    CallPair(cfg, t, c.0.zone, c.1.zone, p);
  }

  lemma PairRule(cfg: Config, t: Table, c: (Claim, Claim), p: Packet)
    requires Compiled(cfg, t) && MadePair(cfg, c)
    ensures Yields(t, [Rule(SideTests(Input, c.0) + SideTests(Output, c.1), Jump(PairChain(cfg, c)))], 3, p,
              if PairHolds(c, p) then PairMeaning(cfg, c.0.zone, c.1.zone, p) else None)
  {
    hide PairMeaning, SideTests, PairChain, Linked, NamesOk, PhysicalsOk, Layered, IcmpsDeclared, MadePair;
    PairCall(cfg, t, c, p);
    SideTestsExact(Input, c.0, p);
    SideTestsExact(Output, c.1, p);
    SatConcat(SideTests(Input, c.0), SideTests(Output, c.1), p);
    YieldsRule(t, SideTests(Input, c.0) + SideTests(Output, c.1), Jump(PairChain(cfg, c)), 3, p);
  }

  /** A pair that holds on a plain packet is in the verdict map, and conversely. */
  lemma PlainMapped(cfg: Config, c: (Claim, Claim), p: Packet)
    requires MadePair(cfg, c) && PairHolds(c, p)
    ensures MappedPair(cfg, c) <==> Plain(cfg, p)
  {
    hide Scoped, NetZones, Owned, Dispatched;
  }

  /** The ordered rules of one rank offer the packet to the claims of that rank. */
  lemma {:induction false} RankRules(cfg: Config, t: Table, cs: seq<(Claim, Claim)>, r: nat, p: Packet)
    requires Compiled(cfg, t) && forall c :: c in cs ==> MadePair(cfg, c)
    ensures Yields(t, Seconds(Keep(PairOrdered(cfg, cs), r)), 3, p,
              if Plain(cfg, p) then None else OfferPairs(cfg, Ranked(cs, r), p))
  {
    hide Compiled, MadePair, SideTests, PairChain, Yields, PairMeaning, MappedPair, Plain, HoldsFrom, HoldsTo;
    if cs == [] {
      assert Layered(t) by { Unpack(cfg, t); }
      YieldsNothing(t, 3, p);
    } else {
      var pre, c := cs[..|cs| - 1], cs[|cs| - 1];
      assert c in cs;
      RankRules(cfg, t, pre, r, p);
      var s := PairOrdered(cfg, pre);
      var line := Rule(SideTests(Input, c.0) + SideTests(Output, c.1), Jump(PairChain(cfg, c)));
      var v := if PairHolds(c, p) then PairMeaning(cfg, c.0.zone, c.1.zone, p) else None;
      if PairHolds(c, p) {
        PlainMapped(cfg, c, p);
      }
      if MappedPair(cfg, c) {
        assert PairOrdered(cfg, cs) == s;
      } else {
        assert PairOrdered(cfg, cs) == s + [(Rank(c), line)];
        KeepLast(s + [(Rank(c), line)], r);
        if Rank(c) == r {
          PairRule(cfg, t, c, p);
          SecondsLast(Keep(s, r), (r, line));
          YieldsBoth(t, Seconds(Keep(s, r)), [line], 3, p,
                     if Plain(cfg, p) then None else OfferPairs(cfg, Ranked(pre, r), p), v);
        }
      }
      if Rank(c) == r {
        assert Ranked(cs, r) == Ranked(pre, r) + [c];
      } else {
        assert Ranked(cs, r) == Ranked(pre, r);
      }
    }
  }

  /** A line that fell through once falls through again: dropping repeated
      dispatch lines changes nothing. */
  lemma {:induction false} FellEach(t: Table, ls: seq<Line>, level: nat, l: Line, p: Packet)
    requires Layered(t) && LinesOk(t, ls, level) && Eval(t, ls, level, p).Fell? && l in ls
    ensures LinesOk(t, [l], level) && Eval(t, [l], level, p).Fell?
    decreases |ls|
  {
    FiredOk(t, ls[0], level, p);
    if l == ls[0] {
      EvalOne(t, l, level, p);
    } else {
      assert l in ls[1..];
      FellEach(t, ls[1..], level, l, p);
    }
  }

  lemma {:induction false} DedupSame(t: Table, ls: seq<Line>, level: nat, p: Packet)
    requires Layered(t) && LinesOk(t, ls, level)
    ensures LinesOk(t, Dedup(ls), level) && Eval(t, Dedup(ls), level, p) == Eval(t, ls, level, p)
  {
    hide Eval, Layered;
    DedupIn(ls);
    forall i | 0 <= i < |Dedup(ls)| ensures LineOk(t, Dedup(ls)[i], level) {
      assert Dedup(ls)[i] in Dedup(ls);
    }
    if ls != [] {
      var pre, l := ls[..|ls| - 1], ls[|ls| - 1];
      DedupSame(t, pre, level, p);
      assert ls == pre + [l];
      EvalConcat(t, pre, [l], level, p);
      if l in Dedup(pre) {
        if Eval(t, pre, level, p).Fell? {
          FellEach(t, Dedup(pre), level, l, p);
        }
      } else {
        EvalConcat(t, Dedup(pre), [l], level, p);
      }
    }
  }

  lemma {:induction false} PairEntriesIn(cfg: Config, cs: seq<(Claim, Claim)>)
    ensures forall e :: e in PairEntries(cfg, cs) <==>
              exists c :: c in cs && MappedPair(cfg, c) && e == ((c.0.iface, c.1.iface), PairChain(cfg, c))
  {
    hide MappedPair, PairChain;
    if cs != [] {
      var pre, c := cs[..|cs| - 1], cs[|cs| - 1];
      assert cs == pre + [c];
      PairEntriesIn(cfg, pre);
    }
  }

  /** Offering to the pairs of whole claims: the one that holds decides. */
  lemma {:induction false} PairOffer(cfg: Config, cs: seq<(Claim, Claim)>, c: (Claim, Claim), p: Packet)
    requires PhysicalsOk(cfg) && forall d :: d in cs ==> MadePair(cfg, d)
    requires MadePair(cfg, c) && Rank(c) == 2 && PairHolds(c, p)
    ensures OfferPairs(cfg, Ranked(cs, 2), p) == if c in cs then PairMeaning(cfg, c.0.zone, c.1.zone, p) else None
  {
    hide PairMeaning, PhysicalsOk, Made, Dispatched;
    if cs != [] {
      var pre, d := cs[..|cs| - 1], cs[|cs| - 1];
      assert d in cs && cs == pre + [d];
      PairOffer(cfg, pre, c, p);
      if Rank(d) == 2 {
        assert Ranked(cs, 2) == Ranked(pre, 2) + [d];
        if PairHolds(d, p) {
          WholeUnique(cfg, c.0, d.0);
          WholeUnique(cfg, c.1, d.1);
        }
      } else {
        assert Ranked(cs, 2) == Ranked(pre, 2);
      }
    }
  }

  lemma {:induction false} PairSilent(cfg: Config, cs: seq<(Claim, Claim)>, r: nat, p: Packet)
    requires forall c :: c in cs && Rank(c) == r ==> !PairHolds(c, p)
    ensures OfferPairs(cfg, Ranked(cs, r), p) == None
  {
    hide PairMeaning, HoldsFrom, HoldsTo;
    if cs != [] {
      var pre, c := cs[..|cs| - 1], cs[|cs| - 1];
      assert c in cs;
      PairSilent(cfg, pre, r, p);
      if Rank(c) == r {
        assert Ranked(cs, r) == Ranked(pre, r) + [c];
      } else {
        assert Ranked(cs, r) == Ranked(pre, r);
      }
    }
  }

  /** An entry calls a chain that means v whenever its key is the packet's. */
  ghost predicate EntryMeans(t: Table, e: ((string, string), string), p: Packet, v: Option<Verdict>)
    requires Layered(t)
  {
    StmtOk(t, Jump(e.1), 3) && (e.0 == (p.iif, p.oif) ==> Call(t, e.1, p) == v)
  }

  lemma {:induction false} CascadeYields(t: Table, es: seq<((string, string), string)>, p: Packet, v: Option<Verdict>)
    requires Layered(t) && forall e :: e in es ==> EntryMeans(t, e, p, v)
    ensures Yields(t, Cascade(es), 3, p, if exists e :: e in es && e.0 == (p.iif, p.oif) then v else None)
  {
    hide Layered, Eval, Yields, Call, StmtOk;
    if es == [] {
      YieldsNothing(t, 3, p);
      assert Cascade(es) == [];
    } else {
      var pre, e := es[..|es| - 1], es[|es| - 1];
      assert es == pre + [e] && e in es;
      CascadeYields(t, pre, p, v);
      var ts := [Iif(e.0.0), Oif(e.0.1)];
      YieldsRule(t, ts, Jump(e.1), 3, p);
      assert SatAll(ts, p) <==> e.0 == (p.iif, p.oif) by {
        assert SatAll(ts, p) <==> Sat(ts[0], p) && Sat(ts[1], p);
      }
      YieldsBoth(t, Cascade(pre), [Rule(ts, Jump(e.1))], 3, p,
                 if exists d :: d in pre && d.0 == (p.iif, p.oif) then v else None,
                 if e.0 == (p.iif, p.oif) then v else None);
      assert Cascade(es) == Cascade(pre) + [Rule(ts, Jump(e.1))];
    }
  }

  /** The concatenated map and the plain cascade do the same. */
  lemma PairMapYields(cfg: Config, t: Table, es: seq<((string, string), string)>, p: Packet, v: Option<Verdict>)
    requires Layered(t) && forall e :: e in es ==> EntryMeans(t, e, p, v)
    ensures Yields(t, PairMapLines(cfg, es), 3, p, if exists e :: e in es && e.0 == (p.iif, p.oif) then v else None)
  {
    hide Layered;
    if es == [] {
      YieldsNothing(t, 3, p);
    } else if cfg.concatMaps {
      forall i | 0 <= i < |es| ensures StmtOk(t, Jump(es[i].1), 3) {
        assert es[i] in es;
      }
      LookupIn(es, (p.iif, p.oif));
      EvalOne(t, PairMap(es), 3, p);
      if Lookup(es, (p.iif, p.oif)).Some? {
        var e := ((p.iif, p.oif), Lookup(es, (p.iif, p.oif)).value);
        assert e in es && EntryMeans(t, e, p, v);
      }
    } else {
      CascadeYields(t, es, p, v);
    }
  }

  lemma EntriesMean(cfg: Config, t: Table, cs: seq<(Claim, Claim)>, p: Packet)
    requires Compiled(cfg, t) && forall c :: c in cs ==> MadePair(cfg, c)
    ensures forall e :: e in PairEntries(cfg, cs) ==> EntryMeans(t, e, p, OfferPairs(cfg, Ranked(cs, 2), p))
  {
    hide Linked, NamesOk, PhysicalsOk, Layered, IcmpsDeclared, MadePair, PairMeaning, PairChain, Scoped, OfferPairs,
         Ranked, PairEntries, Call;
    PairEntriesIn(cfg, cs);
    forall e | e in PairEntries(cfg, cs) ensures EntryMeans(t, e, p, OfferPairs(cfg, Ranked(cs, 2), p)) {
      var c :| c in cs && MappedPair(cfg, c) && e == ((c.0.iface, c.1.iface), PairChain(cfg, c));
      PairCall(cfg, t, c, p);
      if e.0 == (p.iif, p.oif) {
        PairOffer(cfg, cs, c, p);
      }
    }
  }

  lemma PairMapRules(cfg: Config, t: Table, cs: seq<(Claim, Claim)>, p: Packet)
    requires Compiled(cfg, t) && forall c :: c in cs ==> MadePair(cfg, c)
    ensures Yields(t, PairMapLines(cfg, PairEntries(cfg, cs)), 3, p,
              if Plain(cfg, p) then OfferPairs(cfg, Ranked(cs, 2), p) else None)
  {
    hide Compiled, MadePair, PairMeaning, PairChain, Scoped, OfferPairs, Ranked, PairEntries, Call, EntryMeans,
         PairMapLines, Yields;
    assert Layered(t) by { Unpack(cfg, t); }
    EntriesMean(cfg, t, cs, p);
    PairMapYields(cfg, t, PairEntries(cfg, cs), p, OfferPairs(cfg, Ranked(cs, 2), p));
    PairEntriesIn(cfg, cs);
    if exists e :: e in PairEntries(cfg, cs) && e.0 == (p.iif, p.oif) {
      var e :| e in PairEntries(cfg, cs) && e.0 == (p.iif, p.oif);
      var c :| c in cs && MappedPair(cfg, c) && e == ((c.0.iface, c.1.iface), PairChain(cfg, c));
      assert Plain(cfg, p);
    } else if Plain(cfg, p) {
      forall c | c in cs && Rank(c) == 2 ensures !PairHolds(c, p) {
        var e := ((c.0.iface, c.1.iface), PairChain(cfg, c));
        if MappedPair(cfg, c) {
          assert e in PairEntries(cfg, cs);
        }
      }
      PairSilent(cfg, cs, 2, p);
    }
  }

  /** On a plain packet no address-scoped pair holds. */
  lemma PlainNarrowSilent(cfg: Config, cs: seq<(Claim, Claim)>, r: nat, p: Packet)
    requires Plain(cfg, p) && r < 2 && forall c :: c in cs ==> MadePair(cfg, c)
    ensures OfferPairs(cfg, Ranked(cs, r), p) == None
  {
    forall c | c in cs && Rank(c) == r ensures !PairHolds(c, p) {
      if PairHolds(c, p) {
        PlainMapped(cfg, c, p);
      }
    }
    PairSilent(cfg, cs, r, p);
  }

  lemma OrderedPairs(cfg: Config, t: Table, cs: seq<(Claim, Claim)>, p: Packet)
    requires Compiled(cfg, t) && forall c :: c in cs ==> MadePair(cfg, c)
    ensures Yields(t, Dedup(Seconds(SortByRank(PairOrdered(cfg, cs)))), 3, p,
              if Plain(cfg, p) then None else ForwardOffer(cfg, cs, p))
  {
    var s := PairOrdered(cfg, cs);
    var v := if Plain(cfg, p) then None else ForwardOffer(cfg, cs, p);
    assert Yields(t, Seconds(SortByRank(s)), 3, p, v) by {
      hide Compiled, Yields, MadePair, Plain, OfferPairs, Ranked, PairOrdered, SortByRank, Keep, HookLine;
      UnpackNames(cfg, t);
      PairOrderedJump(cfg, cs);
      SortedLines(s);
      RankRules(cfg, t, cs, 0, p);
      RankRules(cfg, t, cs, 1, p);
      RankRules(cfg, t, cs, 2, p);
      var plain := Plain(cfg, p);
      var a, b, c := Seconds(Keep(s, 0)), Seconds(Keep(s, 1)), Seconds(Keep(s, 2));
      var x, y, z := OfferPairs(cfg, Ranked(cs, 0), p), OfferPairs(cfg, Ranked(cs, 1), p),
          OfferPairs(cfg, Ranked(cs, 2), p);
      YieldsBoth(t, a, b, 3, p, if plain then None else x, if plain then None else y);
      YieldsBoth(t, a + b, c, 3, p, OrElse(if plain then None else x, if plain then None else y),
                 if plain then None else z);
    }
    DedupSame(t, Seconds(SortByRank(s)), 3, p);
  }

  lemma ForwardExact(cfg: Config, t: Table, p: Packet)
    requires Compiled(cfg, t)
    ensures Yields(t, ForwardDispatch(cfg), 3, p, ForwardOffer(cfg, PairClaims(cfg, NetZones(cfg)), p))
  {
    hide Compiled, Yields, MadePair, Plain, OfferPairs, Ranked, PairOrdered, PairEntries, SortByRank, Dedup,
         PairMapLines, PairClaims, NetZones;
    var cs := PairClaims(cfg, NetZones(cfg));
    PairClaimsMade(cfg, NetZones(cfg));
    PairMapRules(cfg, t, cs, p);
    OrderedPairs(cfg, t, cs, p);
    if Plain(cfg, p) {
      PlainNarrowSilent(cfg, cs, 0, p);
      PlainNarrowSilent(cfg, cs, 1, p);
    }
    YieldsBoth(t, PairMapLines(cfg, PairEntries(cfg, cs)), Dedup(Seconds(SortByRank(PairOrdered(cfg, cs)))), 3, p,
               if Plain(cfg, p) then OfferPairs(cfg, Ranked(cs, 2), p) else None,
               if Plain(cfg, p) then None else ForwardOffer(cfg, cs, p));
  }

  // ------------------------------------------------------------ the theorem

  lemma HookExact(cfg: Config, t: Table, hook: Hook, p: Packet)
    requires Compiled(cfg, t)
    ensures HookName(hook) in t && HookVerdict(t, HookName(hook), p) == Meaning(cfg, hook, p)
  {
    hide Layered, HookOpening, SideDispatch, ForwardDispatch, Helpers, PairsLinked, IcmpsDeclared, NamesOk,
         PhysicalsOk, PairClaims, ClaimsOf, NetZones, OpeningMeaning, ForwardOffer, Yields;
    OpeningExact(cfg, t, hook, p);
    if hook == Forward {
      ForwardExact(cfg, t, p);
    } else {
      SideExact(cfg, t, hook, p);
    }
    YieldsBoth(t, HookOpening(cfg, hook), Dispatch(cfg, hook), 3, p, OpeningMeaning(cfg, hook, p),
        ZonesMeaning(cfg, hook, p));
    YieldsHook(t, HookName(hook), p, OrElse(OpeningMeaning(cfg, hook, p), ZonesMeaning(cfg, hook, p)));
  }

  lemma YieldsHook(t: Table, hook: string, p: Packet, v: Option<Verdict>)
    requires Layered(t) && hook in t && Yields(t, t[hook].lines, t[hook].level, p, v)
    ensures HookVerdict(t, hook, p) == if v.Some? then v.value else Drop
  {
  }

  /** The compiler is correct: for every configuration it accepts, whatever the
      order of the shared chains, the loaded table gives every packet on every
      hook the verdict of the configuration read directly. */
  lemma CompilerCorrect(cfg: Config, order: seq<string>, hook: Hook, p: Packet)
    requires NamesOk(cfg) && PhysicalsOk(cfg) && PoliciesOk(cfg) && IcmpsDeclared(cfg)
    requires Orders(order, Shared(cfg, Pairs(cfg)))
    ensures var t := Load(Blocks(cfg, order));
      Layered(t) && HookName(hook) in t && HookVerdict(t, HookName(hook), p) == Meaning(cfg, hook, p)
  {
    hide Blocks, Load, Layered, Meaning, HookVerdict, NamesOk, PhysicalsOk, PoliciesOk, IcmpsDeclared, Linked;
    BlocksLinked(cfg, order);
    LoadsExactly(cfg, order);
    HookExact(cfg, Load(Blocks(cfg, order)), hook, p);
  }
}
