/** The form of what is emitted, beyond its meaning: what nft can express, what
    is folded together, and what is never said twice. */
module EmitShape {
  import opened Wrappers
  import opened Columns
  import opened Nft
  import opened Zones
  import opened Emit
  import opened EmitLayers
  import opened ZoneReading

  // ------------------------------------------------------------ address columns

  /** One nft match can hold literal addresses, or MACs, or one named set or country. */
  predicate Expressible(group: seq<Item>) {
    || (forall x :: x in group ==> x.Address?) || (forall x :: x in group ==> x.Mac?) || |group| == 1
  }

  lemma GroupsExpressible(items: seq<Item>)
    ensures forall g :: g in Groups(items) ==> Expressible(g)
  {
    OfKindIn(items, KAddress);
    OfKindIn(items, KMac);
    OfKindIn(items, KSet);
    OfKindIn(items, KGeo);
  }

  /** Every clause a column is emitted as is one nft match, and a column takes one
      rule, or one for its addresses, one for its MACs and one for each set and
      country. */
  lemma ColumnExpressible(c: Column)
    ensures forall alt, clause :: alt in Alternatives(c) && clause in alt ==> Expressible(clause.group)
    ensures |Alternatives(c)| <= 2 + |OfKind(c.items, KSet)| + |OfKind(c.items, KGeo)|
    ensures c.negated ==> |Alternatives(c)| == 1
  {
    hide OfKind;
    var gs := Groups(c.items);
    GroupsExpressible(c.items);
    if |gs| <= 1 {
      GroupsPartition(c.items);
      WholeGroup(c.items);
    }
  }

  /** With one group at most, the column itself is that group. */
  lemma WholeGroup(items: seq<Item>)
    requires |Groups(items)| <= 1
    ensures Expressible(items)
  {
    OfKindIn(items, KAddress);
    OfKindIn(items, KMac);
    OfKindIn(items, KSet);
    OfKindIn(items, KGeo);
    KindsCount(items);
  }

  lemma {:induction false} KindsCount(items: seq<Item>)
    ensures |items| == |OfKind(items, KAddress)| + |OfKind(items, KMac)| + |OfKind(items, KSet)| + |OfKind(items, KGeo)|
  {
    if items != [] {
      KindsCount(items[..|items| - 1]);
    }
  }

  // -------------------------------------------------------------------- dispatch

  /** No line is repeated, and none is lost. */
  lemma {:induction false} DedupDistinct(ls: seq<Line>)
    ensures Distinct(Dedup(ls)) && forall l :: l in Dedup(ls) <==> l in ls
  {
    DedupIn(ls);
    if ls != [] {
      DedupDistinct(ls[..|ls| - 1]);
    }
  }

  /** A line of its own for a pair of claims that a map cannot hold. */
  ghost predicate OwnLine(cfg: Config, cs: seq<(Claim, Claim)>, l: Line) {
    exists c :: c in cs && PairLine(cfg, c, l)
      && (c.0.nets.Some? || c.1.nets.Some? || Scoped(cfg, c.0.iface) || Scoped(cfg, c.1.iface))
  }

  predicate PairLine(cfg: Config, c: (Claim, Claim), l: Line) {
    l == Rule(SideTests(Input, c.0) + SideTests(Output, c.1), Jump(PairChain(cfg, c)))
  }

  lemma {:induction false} OrderedOwn(cfg: Config, cs: seq<(Claim, Claim)>)
    ensures forall x :: x in PairOrdered(cfg, cs) ==> OwnLine(cfg, cs, x.1)
  {
    hide PairChain, SideTests, Scoped, Rank;
    if cs != [] {
      var pre, c := cs[..|cs| - 1], cs[|cs| - 1];
      assert cs == pre + [c] && c in cs;
      OrderedOwn(cfg, pre);
      assert forall d :: d in pre ==> d in cs;
      assert !MappedPair(cfg, c) ==>
        PairLine(cfg, c, Rule(SideTests(Input, c.0) + SideTests(Output, c.1), Jump(PairChain(cfg, c))));
    }
  }

  /** With concatenated maps the unscoped pairs take one map line together;
      without them no such map is emitted at all. */
  lemma MapsOnlyWhere(cfg: Config)
    ensures !cfg.concatMaps ==> forall l :: l in ForwardDispatch(cfg) ==> !l.PairMap?
    ensures cfg.concatMaps ==> forall i :: 0 <= i < |ForwardDispatch(cfg)| ==>
              if ForwardDispatch(cfg)[i].PairMap? then i == 0
              else OwnLine(cfg, PairClaims(cfg, NetZones(cfg)), ForwardDispatch(cfg)[i])
  {
    hide PairClaims, NetZones, PairEntries, PairOrdered, OwnLine, SortByRank, Dedup;
    var cs := PairClaims(cfg, NetZones(cfg));
    var s := PairOrdered(cfg, cs);
    OrderedOwn(cfg, cs);
    SortKeeps(s);
    DedupDistinct(Seconds(SortByRank(s)));
    forall l | l in Dedup(Seconds(SortByRank(s)))
      ensures OwnLine(cfg, cs, l) && !l.PairMap?
    {
      var i :| 0 <= i < |Seconds(SortByRank(s))| && Seconds(SortByRank(s))[i] == l;
      assert SortByRank(s)[i] in s;
      OwnIsRule(cfg, cs, l);
    }
    var head, tail := PairMapLines(cfg, PairEntries(cfg, cs)), Dedup(Seconds(SortByRank(s)));
    forall l | l in head
      ensures l.PairMap? == cfg.concatMaps
    {
    }
    assert forall i :: 0 <= i < |tail| ==> tail[i] in tail;
    assert ForwardDispatch(cfg) == head + tail;
  }

  lemma OwnIsRule(cfg: Config, cs: seq<(Claim, Claim)>, l: Line)
    ensures OwnLine(cfg, cs, l) ==> l.Rule?
  {
  }

  lemma {:induction false} InsertKeeps(s: seq<(nat, Line)>, x: (nat, Line))
    ensures multiset(InsertByRank(s, x)) == multiset(s) + multiset{x}
  {
    if s != [] && s[|s| - 1].0 > x.0 {
      InsertKeeps(s[..|s| - 1], x);
      assert s == s[..|s| - 1] + [s[|s| - 1]];
    }
  }

  lemma {:induction false} SortKeeps(s: seq<(nat, Line)>)
    ensures multiset(SortByRank(s)) == multiset(s)
    ensures forall x :: x in SortByRank(s) <==> x in s
  {
    if s != [] {
      SortKeeps(s[..|s| - 1]);
      InsertKeeps(SortByRank(s[..|s| - 1]), s[|s| - 1]);
      assert s == s[..|s| - 1] + [s[|s| - 1]];
    }
    assert forall x :: x in SortByRank(s) <==> x in multiset(SortByRank(s));
    assert forall x :: x in s <==> x in multiset(s);
  }

  // --------------------------------------------------------------- shared chains

  /** No rule of the file is for the pair. */
  predicate NoRules(cfg: Config, z1: string, z2: string) {
    forall i :: 0 <= i < |cfg.rules| ==> !(cfg.rules[i].source in [z1, "all"] && cfg.rules[i].dest in [z2, "all"])
  }

  /** A pair without rules whose first policy line is not for it by name has no
      chain of its own: all such pairs of one line share the chain named after
      its two labels, a + spelled plus. Any other pair has its own. */
  lemma SharedTogether(cfg: Config, z1: string, z2: string, i: nat)
    requires !CatchAllName(z1) && FirstFor(cfg.policies, z1, z2, i)
    ensures var pol := cfg.policies[i];
      ChainFor(cfg, z1, z2) ==
        if NoRules(cfg, z1, z2) && (pol.source != z1 || pol.dest != z2)
        then Plus(pol.source) + "2" + Plus(pol.dest)
        else z1 + "2" + z2
  {
    hide PolicyFor, Plus, IsFor;
    PolicyRead(cfg, z1, z2, cfg.policies[i]);
    assert NoRules(cfg, z1, z2) <==> !HasRules(cfg, z1, z2);
  }

  lemma PlusSpelt()
    ensures Plus("all") == "all" && Plus("any") == "any" && Plus("all+") == "allplus" && Plus("any+") == "anyplus"
  {
    hide Plus;
    PlusPlain("all");
    PlusPlain("any");
    PlusEnd("all");
    PlusEnd("any");
    assert "all" + ['+'] == "all+" && "any" + ['+'] == "any+";
    assert "all" + "plus" == "allplus" && "any" + "plus" == "anyplus";
  }

  lemma {:induction false} PlusPlain(s: string)
    requires '+' !in s
    ensures Plus(s) == s
  {
    if s != "" {
      assert s[0] in s;
      PlusPlain(s[1..]);
    }
  }

  lemma {:induction false} PlusEnd(s: string)
    requires '+' !in s
    ensures Plus(s + ['+']) == s + "plus"
  {
    if s == "" {
      assert s + ['+'] == ['+'] && ['+'][1..] == "";
      assert Plus("") == "";
    } else {
      assert s[0] in s && (s + ['+'])[1..] == s[1..] + ['+'];
      PlusEnd(s[1..]);
    }
  }
}
