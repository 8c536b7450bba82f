/** Chain names never clash, pairs that share a chain share a policy, and every
    jump of the loaded table lands on a lower chain. */
module EmitTable {
  import opened Wrappers
  import opened Nft
  import opened Zones
  import opened Emit
  import opened EmitRules

  lemma DistinctConcat<T>(xs: seq<T>, ys: seq<T>)
    requires Distinct(xs) && Distinct(ys) && forall x :: x in xs ==> x !in ys
    ensures Distinct(xs + ys)
  {
    var s := xs + ys;
    forall i, j | 0 <= i < j < |s| ensures s[i] != s[j] {
      if i < |xs| <= j {
        assert s[i] == xs[i] && s[j] == ys[j - |xs|];
        assert xs[i] in xs && ys[j - |xs|] in ys;
      }
    }
  }

  // ------------------------------------------------------------- zone names

  ghost predicate ZoneNameOk(z: string) {
    z != [] && '2' !in z && '+' !in z && z != "all" && z != "any" && z != "allplus" && z != "anyplus"
  }

  ghost predicate NamesOk(cfg: Config) {
    && cfg.fw in cfg.zones && Distinct(cfg.zones)
    && (forall i :: 0 <= i < |cfg.zones| ==> ZoneNameOk(cfg.zones[i]))
    && (forall i :: 0 <= i < |cfg.policies| ==>
          Label(cfg, cfg.policies[i].source) && Label(cfg, cfg.policies[i].dest))
  }

  /** What a policy line may name: a zone or a catch-all. */
  ghost predicate Label(cfg: Config, s: string) {
    s in cfg.zones || CatchAll(s)
  }

  function FirstTwo(s: string): nat {
    if s == [] || s[0] == '2' then 0 else 1 + FirstTwo(s[1..])
  }

  lemma {:induction false} FirstTwoNamed(a: string, b: string)
    requires '2' !in a
    ensures FirstTwo(Named(a, b)) == |a|
  {
    if a != [] {
      assert a[0] in a;
      assert Named(a, b)[1..] == Named(a[1..], b);
      FirstTwoNamed(a[1..], b);
    }
  }

  /** The longer source goes on past the shorter: both names read a2x2d. */
  predicate Straddles(a: string, b: string, c: string, d: string, x: string) {
    c == a + "2" + x && b == x + "2" + d
  }

  lemma NamedStraddles(a: string, b: string, c: string, d: string)
    requires |a| < |c| && Named(a, b) == Named(c, d)
    ensures Straddles(a, b, c, d, c[|a| + 1..])
  {
    var s, n, m := Named(a, b), |a|, |c|;
    assert s[..n] == a && s[n] == '2' && s[n + 1..] == b;
    assert s[..m] == c && s[m] == '2' && s[m + 1..] == d;
    assert c[..n] == s[..m][..n] == a && c[n] == '2' && c == c[..n] + [c[n]] + c[n + 1..];
    assert b == s[n + 1..m] + [s[m]] + s[m + 1..] && s[n + 1..m] == c[n + 1..];
  }

  /** Exactly when two zone pairs ask for one chain name: they are the same
      pair, or a zone name with a 2 inside reads as two. */
  lemma NamesClashExactly(a: string, b: string, c: string, d: string)
    ensures Named(a, b) == Named(c, d) <==>
            (a == c && b == d) || exists x :: Straddles(a, b, c, d, x) || Straddles(c, d, a, b, x)
  {
    if x :| Straddles(a, b, c, d, x) || Straddles(c, d, a, b, x) {
      if Straddles(a, b, c, d, x) {
        assert a + "2" + (x + "2" + d) == a + "2" + x + "2" + d;
      } else {
        assert c + "2" + (x + "2" + b) == c + "2" + x + "2" + b;
      }
    }
    if Named(a, b) == Named(c, d) {
      if |a| < |c| {
        NamedStraddles(a, b, c, d);
      } else if |c| < |a| {
        NamedStraddles(c, d, a, b);
      } else {
        assert Named(a, b)[..|a|] == a && Named(c, d)[..|a|] == c;
        assert Named(a, b)[|a| + 1..] == b && Named(c, d)[|a| + 1..] == d;
      }
    }
  }

  lemma NamedInjective(a: string, b: string, c: string, d: string)
    requires '2' !in a && '2' !in c && Named(a, b) == Named(c, d)
    ensures a == c && b == d
  {
    FirstTwoNamed(a, b);
    FirstTwoNamed(c, d);
    var s, n := Named(a, b), |a|;
    assert s[..n] == a && s[n + 1..] == b;
    assert s[..n] == c && s[n + 1..] == d;
  }

  lemma {:induction false} PlusNone(s: string)
    requires '+' !in s
    ensures Plus(s) == s
  {
    if s != [] {
      assert s[0] in s;
      PlusNone(s[1..]);
    }
  }

  lemma PlusCatchAll(s: string)
    requires CatchAll(s)
    ensures Plus(s) == if s == "all" then "all" else if s == "any" then "any"
                       else if s == "all+" then "allplus" else "anyplus"
  {
    if s == "all" || s == "any" {
      PlusNone(s);
    } else {
      assert s[1..][1..][1..] == "+" && s[1..][1..] == s[2..] && s[1..] == [s[1], s[2], s[3]];
      assert Plus("+") == "plus" + Plus([]);
      assert Plus(s[2..]) == [s[2]] + Plus("+");
      assert Plus(s[1..]) == [s[1]] + Plus(s[2..]);
    }
  }

  /** Distinct labels keep distinct, '2'-free spellings in chain names. */
  lemma PlusLabel(cfg: Config, s: string)
    requires NamesOk(cfg) && Label(cfg, s)
    ensures Plus(s) != [] && '2' !in Plus(s)
    ensures s in cfg.zones ==> Plus(s) == s
    ensures CatchAll(s) ==> Plus(s) !in cfg.zones
  {
    if s in cfg.zones {
      PlusNone(s);
    } else {
      PlusCatchAll(s);
    }
  }

  lemma PlusInjective(cfg: Config, s: string, t: string)
    requires NamesOk(cfg) && Label(cfg, s) && Label(cfg, t) && Plus(s) == Plus(t)
    ensures s == t
  {
    PlusLabel(cfg, s);
    PlusLabel(cfg, t);
    if CatchAll(s) && CatchAll(t) {
      PlusCatchAll(s);
      PlusCatchAll(t);
    }
  }

  // ---------------------------------------------------------- shared chains

  /** The pair shares a chain instead of having its own. */
  ghost predicate Shares(cfg: Config, z1: string, z2: string) {
    ChainFor(cfg, z1, z2) != Named(z1, z2)
  }

  lemma SharesBy(cfg: Config, z1: string, z2: string)
    requires NamesOk(cfg) && Shares(cfg, z1, z2)
    ensures !HasRules(cfg, z1, z2)
    ensures var p := FirstPolicy(cfg.policies, z1, z2);
      && p.Some? && PolicyFor(cfg, z1, z2) == p && p.value in cfg.policies && PolicyApplies(p.value, z1, z2)
      && Label(cfg, p.value.source) && Label(cfg, p.value.dest)
      && ChainFor(cfg, z1, z2) == Named(Plus(p.value.source), Plus(p.value.dest))
  {
    FirstPolicyKnown(cfg.policies, z1, z2);
  }

  lemma {:induction false} SameLabelsFirst(pols: seq<Policy>, a: string, b: string, c: string, d: string)
    requires FirstPolicy(pols, a, b).Some? && FirstPolicy(pols, c, d).Some?
    requires FirstPolicy(pols, a, b).value.source == FirstPolicy(pols, c, d).value.source
    requires FirstPolicy(pols, a, b).value.dest == FirstPolicy(pols, c, d).value.dest
    ensures FirstPolicy(pols, a, b) == FirstPolicy(pols, c, d)
  {
    FirstPolicyKnown(pols, a, b);
    FirstPolicyKnown(pols, c, d);
    if !PolicyApplies(pols[0], a, b) && !PolicyApplies(pols[0], c, d) {
      SameLabelsFirst(pols[1..], a, b, c, d);
    }
  }

  /** All pairs sent to one shared chain have the same first-match policy. */
  lemma SharingSound(cfg: Config, a: string, b: string, c: string, d: string)
    requires NamesOk(cfg) && Shares(cfg, a, b) && Shares(cfg, c, d)
    requires ChainFor(cfg, a, b) == ChainFor(cfg, c, d)
    ensures PolicyFor(cfg, a, b) == PolicyFor(cfg, c, d)
  {
    hide Plus, PolicyApplies, FirstPolicy, PolicyFor, ChainFor, HasRules, Named;
    SharesBy(cfg, a, b);
    SharesBy(cfg, c, d);
    var p, q := FirstPolicy(cfg.policies, a, b).value, FirstPolicy(cfg.policies, c, d).value;
    PlusLabel(cfg, p.source);
    PlusLabel(cfg, q.source);
    NamedInjective(Plus(p.source), Plus(p.dest), Plus(q.source), Plus(q.dest));
    PlusInjective(cfg, p.source, q.source);
    PlusInjective(cfg, p.dest, q.dest);
    SameLabelsFirst(cfg.policies, a, b, c, d);
  }

  /** A shared chain never takes the name of a pair's own chain. */
  lemma SharedNotOwned(cfg: Config, a: string, b: string, c: string, d: string)
    requires NamesOk(cfg) && a in cfg.zones && b in cfg.zones && Shares(cfg, c, d)
    ensures ChainFor(cfg, c, d) != Named(a, b)
  {
    SharesBy(cfg, c, d);
    var p := FirstPolicy(cfg.policies, c, d).value;
    PlusLabel(cfg, p.source);
    PlusLabel(cfg, p.dest);
    PlusNone(a);
    if ChainFor(cfg, c, d) == Named(a, b) {
      NamedInjective(Plus(p.source), Plus(p.dest), a, b);
    }
  }

  // ------------------------------------------------------------ the pairs

  lemma {:induction false} NetZonesIn(cfg: Config, zones: seq<string>)
    requires Distinct(zones)
    ensures var nets := NetZonesOf(cfg, zones);
      Distinct(nets) && forall z :: z in nets ==> z in zones && z != cfg.fw && Sources(cfg, z) != []
    ensures forall z :: z in zones && z != cfg.fw && Sources(cfg, z) != [] ==> z in NetZonesOf(cfg, zones)
  {
    if zones != [] {
      var pre, z := zones[..|zones| - 1], zones[|zones| - 1];
      NetZonesIn(cfg, pre);
      assert zones == pre + [z];
    }
  }

  lemma {:induction false} FwPairsIn(fw: string, nets: seq<string>)
    requires Distinct(nets) && fw !in nets
    ensures Distinct(FwPairs(fw, nets))
    ensures forall x :: x in FwPairs(fw, nets) <==> (x.0 in nets && x.1 == fw) || (x.0 == fw && x.1 in nets)
  {
    if nets != [] {
      var pre, z := nets[..|nets| - 1], nets[|nets| - 1];
      assert nets == pre + [z];
      FwPairsIn(fw, pre);
      assert z !in pre;
      DistinctConcat(FwPairs(fw, pre), [(z, fw), (fw, z)]);
    }
  }

  lemma {:induction false} PairsFromIn(cfg: Config, z1: string, nets: seq<string>)
    requires Distinct(nets)
    ensures Distinct(PairsFrom(cfg, z1, nets))
    ensures forall x :: x in PairsFrom(cfg, z1, nets) <==>
              x.0 == z1 && x.1 in nets && (z1 != x.1 || Routeback(cfg, z1))
  {
    if nets != [] {
      var pre, z := nets[..|nets| - 1], nets[|nets| - 1];
      assert nets == pre + [z];
      PairsFromIn(cfg, z1, pre);
      assert z !in pre;
      if z1 != z || Routeback(cfg, z1) {
        DistinctConcat(PairsFrom(cfg, z1, pre), [(z1, z)]);
      }
    }
  }

  lemma {:induction false} NetPairsIn(cfg: Config, nets: seq<string>)
    requires Distinct(nets) && Distinct(NetZones(cfg))
    ensures Distinct(NetPairs(cfg, nets))
    ensures forall x :: x in NetPairs(cfg, nets) <==>
              x.0 in nets && x.1 in NetZones(cfg) && (x.0 != x.1 || Routeback(cfg, x.0))
  {
    if nets != [] {
      var pre, z := nets[..|nets| - 1], nets[|nets| - 1];
      assert nets == pre + [z];
      NetPairsIn(cfg, pre);
      PairsFromIn(cfg, z, NetZones(cfg));
      assert z !in pre;
      DistinctConcat(NetPairs(cfg, pre), PairsFrom(cfg, z, NetZones(cfg)));
    }
  }

  /** The pairs that get a chain, each once. */
  lemma PairsIn(cfg: Config)
    requires NamesOk(cfg)
    ensures Distinct(Pairs(cfg))
    ensures forall x :: x in Pairs(cfg) <==>
              var nets := NetZones(cfg);
              || (x.0 in nets && x.1 == cfg.fw) || (x.0 == cfg.fw && x.1 in nets)
              || (x.0 in nets && x.1 in nets && (x.0 != x.1 || Routeback(cfg, x.0)))
    ensures forall x :: x in Pairs(cfg) ==> x.0 in cfg.zones && x.1 in cfg.zones
  {
    var nets := NetZones(cfg);
    NetZonesIn(cfg, cfg.zones);
    FwPairsIn(cfg.fw, nets);
    NetPairsIn(cfg, nets);
    DistinctConcat(FwPairs(cfg.fw, nets), NetPairs(cfg, nets));
  }

  // ---------------------------------------------------------- block names

  function NamesOf(bs: seq<Block>): (r: seq<string>)
    ensures |r| == |bs| && forall i :: 0 <= i < |r| ==> r[i] == bs[i].name
  {
    seq(|bs|, i requires 0 <= i < |bs| => bs[i].name)
  }

  lemma NamesConcat(xs: seq<Block>, ys: seq<Block>)
    ensures NamesOf(xs + ys) == NamesOf(xs) + NamesOf(ys)
  {
  }

  lemma DistinctLast<T>(xs: seq<T>)
    requires Distinct(xs) && xs != []
    ensures Distinct(xs[..|xs| - 1]) && xs[|xs| - 1] !in xs[..|xs| - 1]
  {
  }

  lemma NamesMember(bs: seq<Block>, n: string)
    ensures n in NamesOf(bs) <==> exists b :: b in bs && b.name == n
  {
    if n in NamesOf(bs) {
      var i :| 0 <= i < |bs| && NamesOf(bs)[i] == n;
      assert bs[i] in bs;
    }
    if b :| b in bs && b.name == n {
      var i :| 0 <= i < |bs| && bs[i] == b;
      assert NamesOf(bs)[i] == n;
    }
  }

  /** Loading blocks of distinct names gives each chain its own block. */
  lemma {:induction false} LoadDistinct(bs: seq<Block>)
    requires Distinct(NamesOf(bs))
    ensures forall b :: b in bs ==> b.name in Load(bs) && Load(bs)[b.name] == Chain(b.level, b.lines)
    ensures forall n :: n in Load(bs) <==> n in NamesOf(bs)
  {
    if bs != [] {
      hide Distinct, NamesOf;
      var pre, b := bs[..|bs| - 1], bs[|bs| - 1];
      assert bs == pre + [b];
      assert NamesOf(pre) == NamesOf(bs)[..|bs| - 1] && NamesOf(bs)[|bs| - 1] == b.name by { NamesLast(bs); }
      DistinctLast(NamesOf(bs));
      LoadDistinct(pre);
      forall c | c in pre ensures c.name != b.name {
        NamesMember(pre, c.name);
      }
      forall n ensures n in NamesOf(bs) <==> n in NamesOf(pre) || n == b.name {
        NamesMember(pre, n);
        NamesMember(bs, n);
      }
    }
  }

  lemma NamesLast(bs: seq<Block>)
    requires bs != []
    ensures NamesOf(bs[..|bs| - 1]) == NamesOf(bs)[..|bs| - 1] && |NamesOf(bs)| == |bs|
    ensures NamesOf(bs)[|bs| - 1] == bs[|bs| - 1].name
  {
  }

  /** A pair or policy chain's name has a '2' inside, none at the end. */
  ghost predicate Paired(n: string) {
    n != [] && n[|n| - 1] != '2' && '2' in n
  }

  lemma NamedPaired(a: string, b: string)
    requires b != [] && '2' !in b
    ensures Paired(Named(a, b))
  {
    var n := Named(a, b);
    assert n[|n| - 1] == b[|b| - 1] && b[|b| - 1] in b;
    assert n[|a|] == '2';
  }

  lemma ChainForPaired(cfg: Config, z1: string, z2: string)
    requires NamesOk(cfg) && z2 in cfg.zones
    ensures Paired(ChainFor(cfg, z1, z2))
  {
    if Shares(cfg, z1, z2) {
      SharesBy(cfg, z1, z2);
      var p := FirstPolicy(cfg.policies, z1, z2).value;
      PlusLabel(cfg, p.dest);
      NamedPaired(Plus(p.source), Plus(p.dest));
    } else {
      NamedPaired(z1, z2);
    }
  }

  lemma {:induction false} PairBlocksIn(cfg: Config, pairs: seq<(string, string)>)
    requires NamesOk(cfg) && Distinct(pairs)
    requires forall x :: x in pairs ==> x.0 in cfg.zones && x.1 in cfg.zones && PolicyFor(cfg, x.0, x.1).Some?
    ensures Distinct(NamesOf(PairBlocks(cfg, pairs)))
    ensures forall b :: b in PairBlocks(cfg, pairs) <==>
              exists x :: x in pairs && !Shares(cfg, x.0, x.1)
                && b == Block(Named(x.0, x.1), 2, PairLines(cfg, x.0, x.1, PolicyFor(cfg, x.0, x.1).value))
  {
    hide PairLines, PolicyFor, ChainFor;
    if pairs != [] {
      var pre, x := pairs[..|pairs| - 1], pairs[|pairs| - 1];
      assert pairs == pre + [x];
      PairBlocksIn(cfg, pre);
      if !Shares(cfg, x.0, x.1) {
        var b := Block(Named(x.0, x.1), 2, PairLines(cfg, x.0, x.1, PolicyFor(cfg, x.0, x.1).value));
        NamesConcat(PairBlocks(cfg, pre), [b]);
        forall n | n in NamesOf(PairBlocks(cfg, pre)) ensures n != b.name {
          var i :| 0 <= i < |PairBlocks(cfg, pre)| && NamesOf(PairBlocks(cfg, pre))[i] == n;
          assert PairBlocks(cfg, pre)[i] in PairBlocks(cfg, pre);
          var y :| y in pre && n == Named(y.0, y.1);
          if n == b.name {
            NamedInjective(y.0, y.1, x.0, x.1);
          }
        }
        DistinctConcat(NamesOf(PairBlocks(cfg, pre)), NamesOf([b]));
        assert PairBlocks(cfg, pairs) == PairBlocks(cfg, pre) + [b];
      } else {
        assert PairBlocks(cfg, pairs) == PairBlocks(cfg, pre);
      }
    }
  }

  lemma {:induction false} SharedIn(cfg: Config, pairs: seq<(string, string)>)
    ensures var m := Shared(cfg, pairs);
      && (forall n :: n in m ==> m[n] in pairs && Shares(cfg, m[n].0, m[n].1) && ChainFor(cfg, m[n].0, m[n].1) == n)
      && (forall x :: x in pairs && Shares(cfg, x.0, x.1) ==> ChainFor(cfg, x.0, x.1) in m)
  {
    hide ChainFor, Named;
    if pairs != [] {
      var pre, x := pairs[..|pairs| - 1], pairs[|pairs| - 1];
      assert pairs == pre + [x];
      SharedIn(cfg, pre);
      assert x == (x.0, x.1);
      var m, m' := Shared(cfg, pre), Shared(cfg, pairs);
      assert m' == if Shares(cfg, x.0, x.1) then m[ChainFor(cfg, x.0, x.1) := x] else m;
    }
  }

  lemma {:induction false} SharedBlocksIn(cfg: Config, m: map<string, (string, string)>, order: seq<string>)
    requires Distinct(order)
    requires forall i :: 0 <= i < |order| ==> order[i] in m
    requires forall n :: n in m ==> PolicyFor(cfg, m[n].0, m[n].1).Some?
    ensures NamesOf(SharedBlocks(cfg, m, order)) == order
    ensures forall b :: b in SharedBlocks(cfg, m, order) <==>
              b.name in order && b == Block(b.name, 2, PolicyLines(cfg, PolicyFor(cfg, m[b.name].0, m[b.name].1).value))
  {
    hide PolicyLines, PolicyFor;
    if order != [] {
      var pre, n := order[..|order| - 1], order[|order| - 1];
      assert order == pre + [n];
      SharedBlocksIn(cfg, m, pre);
      var b := Block(n, 2, PolicyLines(cfg, PolicyFor(cfg, m[n].0, m[n].1).value));
      NamesConcat(SharedBlocks(cfg, m, pre), [b]);
      assert SharedBlocks(cfg, m, order) == SharedBlocks(cfg, m, pre) + [b];
      assert NamesOf([b]) == [n];
    }
  }

  lemma {:induction false} DefaultListDistinct(cfg: Config, actions: seq<PolicyAction>)
    ensures Distinct(DefaultList(cfg, actions))
    ensures forall d :: d in DefaultList(cfg, actions) ==>
              Some(d) == cfg.dropDefault || Some(d) == cfg.rejectDefault || Some(d) == cfg.acceptDefault
  {
    if actions != [] {
      var pre := actions[..|actions| - 1];
      DefaultListDistinct(cfg, pre);
      var l, d := DefaultList(cfg, pre), DefaultFor(cfg, actions[|actions| - 1]);
      if d.Some? && d.value !in l {
        DistinctConcat(l, [d.value]);
      }
    }
  }

  /** At most three default actions, so their chain names are single digits. */
  lemma FewDefaults(cfg: Config)
    ensures |Defaults(cfg)| <= 3
  {
    var ds := Defaults(cfg);
    if |ds| > 3 {
      assert ds[0] in ds && ds[1] in ds && ds[2] in ds && ds[3] in ds;
      DefaultListDistinct(cfg, PolicyActions(cfg.policies) + [PolAccept]);
      assert false;
    }
  }

  lemma {:induction false} DefaultBlocksIn(ds: seq<seq<Component>>)
    requires |ds| <= 3
    ensures var bs := DefaultBlocks(ds);
      && |bs| == |ds|
      && forall i :: 0 <= i < |bs| ==> bs[i] == Block(DefaultName(i), 1, ComponentsLines(ds[i]))
                                       && DefaultName(i) == "default_" + ['0' + i as char]
  {
    if ds != [] {
      DefaultBlocksIn(ds[..|ds| - 1]);
      assert forall i :: 0 <= i < |ds| - 1 ==> ds[..|ds| - 1][i] == ds[i];
    }
  }

  lemma DefaultNames(cfg: Config)
    ensures var ns := NamesOf(DefaultBlocks(Defaults(cfg)));
      Distinct(ns) && forall i :: 0 <= i < |ns| ==> !Paired(ns[i]) && |ns[i]| == 9
  {
    hide ComponentsLines, Defaults;
    FewDefaults(cfg);
    DefaultBlocksIn(Defaults(cfg));
    var ns := NamesOf(DefaultBlocks(Defaults(cfg)));
    forall i | 0 <= i < |ns|
      ensures |ns[i]| == 9 && ns[i][8] == '0' + i as char && !Paired(ns[i])
    {
      assert ns[i] == "default_" + ['0' + i as char];
    }
  }

  lemma PlainName(n: string)
    requires n == "input" || n == "output" || n == "forward" || n == "AllowICMPs" || n == "reject_action"
    ensures !Paired(n) && |n| != 9
  {
  }

  lemma HookNames(cfg: Config)
    ensures var hs := NamesOf(HookBlocks(cfg));
      Distinct(hs) && forall n :: n in hs ==> !Paired(n) && |n| <= 7
  {
    hide HookOpening, Dispatch, Paired;
    var hs := NamesOf(HookBlocks(cfg));
    assert hs == ["input", "output", "forward"];
    PlainName("input");
    PlainName("output");
    PlainName("forward");
    assert |"input"| == 5 && |"output"| == 6 && |"forward"| == 7;
  }

  lemma LeafNames(cfg: Config)
    ensures var ls := NamesOf(LeafBlocks(cfg));
      Distinct(ls) && forall n :: n in ls ==> !Paired(n) && |n| >= 10
  {
    hide UsesAllowIcmps, Paired;
    var ls := NamesOf(LeafBlocks(cfg));
    assert ls == if cfg.v6 || UsesAllowIcmps(cfg) then ["AllowICMPs", "reject_action"] else ["reject_action"];
    PlainName("AllowICMPs");
    PlainName("reject_action");
    assert |"AllowICMPs"| == 10 && |"reject_action"| == 13;
  }

  lemma OwnedNames(cfg: Config)
    requires NamesOk(cfg) && PoliciesOk(cfg)
    ensures var ns := NamesOf(PairBlocks(cfg, Pairs(cfg)));
      Distinct(ns) && forall n :: n in ns ==> Paired(n) && exists x :: x in Pairs(cfg) && n == Named(x.0, x.1)
  {
    hide PairLines, PolicyFor, ChainFor;
    var pairs := Pairs(cfg);
    var ps := PairBlocks(cfg, pairs);
    PairsIn(cfg);
    PairBlocksIn(cfg, pairs);
    forall n | n in NamesOf(ps) ensures Paired(n) && exists x :: x in pairs && n == Named(x.0, x.1) {
      NamesMember(ps, n);
      var b :| b in ps && b.name == n;
      var x :| x in pairs && b.name == Named(x.0, x.1);
      assert ZoneNameOk(x.1);
      NamedPaired(x.0, x.1);
    }
  }

  lemma SharedNames(cfg: Config, n: string)
    requires NamesOk(cfg) && PoliciesOk(cfg) && n in Shared(cfg, Pairs(cfg))
    ensures Paired(n) && n !in NamesOf(PairBlocks(cfg, Pairs(cfg)))
  {
    hide PairLines, PolicyFor, ChainFor, PairBlocks;
    var pairs, m := Pairs(cfg), Shared(cfg, Pairs(cfg));
    PairsIn(cfg);
    SharedIn(cfg, pairs);
    OwnedNames(cfg);
    ChainForPaired(cfg, m[n].0, m[n].1);
    if n in NamesOf(PairBlocks(cfg, pairs)) {
      var x :| x in pairs && n == Named(x.0, x.1);
      SharedNotOwned(cfg, x.0, x.1, m[n].0, m[n].1);
    }
  }

  /** No two emitted chains have the same name. */
  lemma NamesDistinct(cfg: Config, order: seq<string>)
    requires NamesOk(cfg) && PoliciesOk(cfg) && Orders(order, Shared(cfg, Pairs(cfg)))
    ensures Distinct(NamesOf(Blocks(cfg, order)))
  {
    hide HookBlocks, PairBlocks, SharedBlocks, LeafBlocks, DefaultBlocks, Pairs, Shared, Defaults, Paired, NamesOf,
         PolicyFor;
    var m := Shared(cfg, Pairs(cfg));
    var hs, ps, ss := HookBlocks(cfg), PairBlocks(cfg, Pairs(cfg)), SharedBlocks(cfg, m, order);
    var ls, ds := LeafBlocks(cfg), DefaultBlocks(Defaults(cfg));
    HookNames(cfg);
    LeafNames(cfg);
    OwnedNames(cfg);
    DefaultNames(cfg);
    SharedIn(cfg, Pairs(cfg));
    assert NamesOf(ss) == order by {
      forall n | n in m ensures PolicyFor(cfg, m[n].0, m[n].1).Some? {
        assert m[n] in Pairs(cfg);
      }
      SharedBlocksIn(cfg, m, order);
    }
    forall n | n in order ensures Paired(n) && n !in NamesOf(ps) {
      SharedNames(cfg, n);
    }
    NamesConcat(hs, ps);
    NamesConcat(hs + ps, ss);
    NamesConcat(ls, ds);
    NamesConcat(hs + ps + ss, ls + ds);
    DistinctConcat(NamesOf(hs), NamesOf(ps));
    DistinctConcat(NamesOf(hs) + NamesOf(ps), order);
    DistinctConcat(NamesOf(ls), NamesOf(ds));
    DistinctConcat(NamesOf(hs) + NamesOf(ps) + order, NamesOf(ls) + NamesOf(ds));
  }

  // -------------------------------------------------------- the loaded table

  /** The lines of the chain a pair is sent to. */
  ghost function LinesFor(cfg: Config, z1: string, z2: string): seq<Line>
    requires PolicyFor(cfg, z1, z2).Some?
  {
    var pol := PolicyFor(cfg, z1, z2).value;
    if Shares(cfg, z1, z2) then PolicyLines(cfg, pol) else PairLines(cfg, z1, z2, pol)
  }

  ghost predicate PairsLinked(cfg: Config, t: Table) {
    forall x :: x in Pairs(cfg) ==>
      && PolicyFor(cfg, x.0, x.1).Some? && ChainFor(cfg, x.0, x.1) in t
      && t[ChainFor(cfg, x.0, x.1)] == Chain(2, LinesFor(cfg, x.0, x.1))
  }

  ghost predicate HooksLinked(cfg: Config, t: Table) {
    forall hook ::
      HookName(hook) in t && t[HookName(hook)] == Chain(3, HookOpening(cfg, hook) + Dispatch(cfg, hook))
  }

  /** The chains there are. */
  ghost predicate Declared(cfg: Config, n: string) {
    || n == "input" || n == "output" || n == "forward" || n == "reject_action"
    || (n == "AllowICMPs" && (cfg.v6 || UsesAllowIcmps(cfg)))
    || (exists i: nat :: i < |Defaults(cfg)| && n == DefaultName(i))
    || (exists x :: x in Pairs(cfg) && n == ChainFor(cfg, x.0, x.1))
  }

  ghost predicate Linked(cfg: Config, t: Table) {
    && Helpers(cfg, t) && PairsLinked(cfg, t) && HooksLinked(cfg, t)
    && forall n :: n in t ==> Declared(cfg, n)
  }

  lemma MemberOf(cfg: Config, order: seq<string>, b: Block)
    requires forall i :: 0 <= i < |order| ==> order[i] in Shared(cfg, Pairs(cfg))
    ensures b in Blocks(cfg, order) <==>
            || b in HookBlocks(cfg) || b in PairBlocks(cfg, Pairs(cfg))
            || b in SharedBlocks(cfg, Shared(cfg, Pairs(cfg)), order) || b in HelperBlocks(cfg)
  {
  }

  lemma BlockLoaded(cfg: Config, order: seq<string>, b: Block)
    requires NamesOk(cfg) && PoliciesOk(cfg) && Orders(order, Shared(cfg, Pairs(cfg)))
    requires b in Blocks(cfg, order)
    ensures b.name in Load(Blocks(cfg, order)) && Load(Blocks(cfg, order))[b.name] == Chain(b.level, b.lines)
  {
    NamesDistinct(cfg, order);
    hide Blocks, Load, NamesOf, Distinct;
    LoadDistinct(Blocks(cfg, order));
  }

  lemma LeavesLoaded(cfg: Config, order: seq<string>)
    requires NamesOk(cfg) && PoliciesOk(cfg) && Orders(order, Shared(cfg, Pairs(cfg)))
    ensures var t := Load(Blocks(cfg, order));
      && "reject_action" in t && t["reject_action"] == Chain(0, [Rule([], Final(Reject))])
      && (cfg.v6 || UsesAllowIcmps(cfg) ==>
            "AllowICMPs" in t && t["AllowICMPs"] == Chain(0, [Rule([NeededIcmp], Final(Accept))]))
  {
    hide Blocks, Load, UsesAllowIcmps, DefaultBlocks;
    var r, a := Block("reject_action", 0, [Rule([], Final(Reject))]),
        Block("AllowICMPs", 0, [Rule([NeededIcmp], Final(Accept))]);
    assert r in LeafBlocks(cfg);
    MemberOf(cfg, order, r);
    BlockLoaded(cfg, order, r);
    if cfg.v6 || UsesAllowIcmps(cfg) {
      assert a in LeafBlocks(cfg);
      MemberOf(cfg, order, a);
      BlockLoaded(cfg, order, a);
    }
  }

  lemma HooksLoaded(cfg: Config, order: seq<string>)
    requires NamesOk(cfg) && PoliciesOk(cfg) && Orders(order, Shared(cfg, Pairs(cfg)))
    ensures HooksLinked(cfg, Load(Blocks(cfg, order)))
  {
    hide Blocks, Load, HookOpening, Dispatch;
    var hs := HookBlocks(cfg);
    forall i | 0 <= i < 3
      ensures hs[i].name in Load(Blocks(cfg, order))
      ensures Load(Blocks(cfg, order))[hs[i].name] == Chain(hs[i].level, hs[i].lines)
    {
      assert hs[i] in hs;
      MemberOf(cfg, order, hs[i]);
      BlockLoaded(cfg, order, hs[i]);
    }
    forall hook: Hook
      ensures HookBlock(cfg, hook) in hs
    {
      assert hs[0] == HookBlock(cfg, Input) && hs[1] == HookBlock(cfg, Output) && hs[2] == HookBlock(cfg, Forward);
    }
  }

  lemma DefaultLoaded(cfg: Config, order: seq<string>, i: nat)
    requires NamesOk(cfg) && PoliciesOk(cfg) && Orders(order, Shared(cfg, Pairs(cfg))) && i < |Defaults(cfg)|
    ensures var t := Load(Blocks(cfg, order));
      DefaultName(i) in t && t[DefaultName(i)] == Chain(1, ComponentsLines(Defaults(cfg)[i]))
  {
    hide Blocks, Load, Defaults, ComponentsLines, DefaultName, LeafBlocks;
    FewDefaults(cfg);
    DefaultBlocksIn(Defaults(cfg));
    var b := DefaultBlocks(Defaults(cfg))[i];
    assert b in DefaultBlocks(Defaults(cfg));
    MemberOf(cfg, order, b);
    BlockLoaded(cfg, order, b);
  }

  lemma HelpersLoaded(cfg: Config, order: seq<string>)
    requires NamesOk(cfg) && PoliciesOk(cfg) && Orders(order, Shared(cfg, Pairs(cfg)))
    ensures Helpers(cfg, Load(Blocks(cfg, order)))
  {
    hide Blocks, Load, Defaults, ComponentsLines, DefaultName, UsesAllowIcmps;
    LeavesLoaded(cfg, order);
    forall i: nat | i < |Defaults(cfg)|
      ensures DefaultName(i) in Load(Blocks(cfg, order))
      ensures Load(Blocks(cfg, order))[DefaultName(i)] == Chain(1, ComponentsLines(Defaults(cfg)[i]))
    {
      DefaultLoaded(cfg, order, i);
    }
  }

  lemma SharedBlockFor(cfg: Config, order: seq<string>, x: (string, string))
    requires NamesOk(cfg) && PoliciesOk(cfg) && Orders(order, Shared(cfg, Pairs(cfg)))
    requires x in Pairs(cfg) && Shares(cfg, x.0, x.1) && PolicyFor(cfg, x.0, x.1).Some?
    ensures Block(ChainFor(cfg, x.0, x.1), 2, PolicyLines(cfg, PolicyFor(cfg, x.0, x.1).value))
            in SharedBlocks(cfg, Shared(cfg, Pairs(cfg)), order)
  {
    hide ChainFor, PolicyFor, PolicyLines, Shares;
    var pairs, m := Pairs(cfg), Shared(cfg, Pairs(cfg));
    SharedIn(cfg, pairs);
    forall n | n in m ensures PolicyFor(cfg, m[n].0, m[n].1).Some? {
      assert m[n] in pairs;
    }
    SharedBlocksIn(cfg, m, order);
    var n := ChainFor(cfg, x.0, x.1);
    assert n in m && n in order;
    SharingSound(cfg, x.0, x.1, m[n].0, m[n].1);
  }

  lemma PairLoaded(cfg: Config, order: seq<string>, x: (string, string))
    requires NamesOk(cfg) && PoliciesOk(cfg) && Orders(order, Shared(cfg, Pairs(cfg))) && x in Pairs(cfg)
    ensures var t, n := Load(Blocks(cfg, order)), ChainFor(cfg, x.0, x.1);
      PolicyFor(cfg, x.0, x.1).Some? && n in t && t[n] == Chain(2, LinesFor(cfg, x.0, x.1))
  {
    hide ChainFor, PolicyFor, PairLines, PolicyLines, Load, Blocks, PairBlocks, SharedBlocks, Shared, Pairs;
    assert PolicyFor(cfg, x.0, x.1).Some?;
    var b := Block(ChainFor(cfg, x.0, x.1), 2, LinesFor(cfg, x.0, x.1));
    if Shares(cfg, x.0, x.1) {
      SharedBlockFor(cfg, order, x);
    } else {
      PairsIn(cfg);
      PairBlocksIn(cfg, Pairs(cfg));
      assert b in PairBlocks(cfg, Pairs(cfg));
    }
    MemberOf(cfg, order, b);
    BlockLoaded(cfg, order, b);
  }

  lemma NameDeclared(cfg: Config, order: seq<string>, b: Block)
    requires NamesOk(cfg) && PoliciesOk(cfg) && Orders(order, Shared(cfg, Pairs(cfg)))
    requires b in Blocks(cfg, order)
    ensures Declared(cfg, b.name)
  {
    hide SideDispatch, ForwardDispatch, ChainFor, PolicyFor, PairLines, PolicyLines, ComponentsLines,
         PairBlocks, SharedBlocks, Shared, Pairs, Defaults, DefaultName, DefaultBlocks, Blocks;
    var pairs, m := Pairs(cfg), Shared(cfg, Pairs(cfg));
    MemberOf(cfg, order, b);
    if b in PairBlocks(cfg, pairs) {
      PairsIn(cfg);
      PairBlocksIn(cfg, pairs);
    } else if b in SharedBlocks(cfg, m, order) {
      SharedIn(cfg, pairs);
      SharedBlocksIn(cfg, m, order);
      assert m[b.name] in pairs;
    } else if b in DefaultBlocks(Defaults(cfg)) {
      FewDefaults(cfg);
      DefaultBlocksIn(Defaults(cfg));
    }
  }

  /** The emitted file loads into exactly the intended chains. */
  lemma BlocksLinked(cfg: Config, order: seq<string>)
    requires NamesOk(cfg) && PoliciesOk(cfg) && Orders(order, Shared(cfg, Pairs(cfg)))
    ensures Linked(cfg, Load(Blocks(cfg, order)))
  {
    hide Blocks, Load, Helpers, HooksLinked, Declared, LinesFor, ChainFor, PolicyFor, Distinct, PoliciesOk, NamesOk;
    var bs := Blocks(cfg, order);
    HelpersLoaded(cfg, order);
    HooksLoaded(cfg, order);
    forall x | x in Pairs(cfg)
      ensures PolicyFor(cfg, x.0, x.1).Some? && ChainFor(cfg, x.0, x.1) in Load(bs)
      ensures Load(bs)[ChainFor(cfg, x.0, x.1)] == Chain(2, LinesFor(cfg, x.0, x.1))
    {
      PairLoaded(cfg, order, x);
    }
    NamesDistinct(cfg, order);
    LoadDistinct(bs);
    forall n | n in Load(bs) ensures Declared(cfg, n) {
      NamesMember(bs, n);
      var b :| b in bs && b.name == n;
      NameDeclared(cfg, order, b);
    }
  }
}
