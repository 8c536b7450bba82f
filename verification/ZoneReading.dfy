/** The configuration read line by line: which policy line, which rule and which
    default action a pair of zones gets, and which configurations are refused. */
module ZoneReading {
  import opened Wrappers
  import opened Columns
  import opened Nft
  import opened Zones
  import opened Emit
  import opened EmitTable

  // ------------------------------------------------------------------ policies

  predicate PlainLabel(word: string) {
    word in ["all", "any"]
  }

  predicate PlusLabel(word: string) {
    word in ["all+", "any+"]
  }

  predicate Covers(word: string, z: string) {
    word == z || PlainLabel(word) || PlusLabel(word)
  }

  /** A policy line is for a pair when both labels cover it. For traffic within a
      zone it must also name the zone on both sides, or use a plus form. */
  predicate IsFor(pol: Policy, z1: string, z2: string) {
    && Covers(pol.source, z1) && Covers(pol.dest, z2)
    && (z1 == z2 ==> (pol.source == z1 && pol.dest == z1) || PlusLabel(pol.source) || PlusLabel(pol.dest))
  }

  predicate CatchAllName(z: string) {
    PlainLabel(z) || PlusLabel(z)
  }

  lemma AppliesIs(pol: Policy, z1: string, z2: string)
    requires !CatchAllName(z1)
    ensures PolicyApplies(pol, z1, z2) <==> IsFor(pol, z1, z2)
  {
  }

  /** Line i is the first that is for the pair. */
  predicate FirstFor(pols: seq<Policy>, z1: string, z2: string, i: nat) {
    i < |pols| && IsFor(pols[i], z1, z2) && forall j :: 0 <= j < i ==> !IsFor(pols[j], z1, z2)
  }

  lemma {:induction false} FirstPolicyIs(pols: seq<Policy>, z1: string, z2: string)
    requires !CatchAllName(z1)
    ensures match FirstPolicy(pols, z1, z2)
            case None => forall i :: 0 <= i < |pols| ==> !IsFor(pols[i], z1, z2)
            case Some(p) => exists i :: 0 <= i < |pols| && FirstFor(pols, z1, z2, i) && pols[i] == p
  {
    hide IsFor, PolicyApplies;
    if pols != [] {
      var rest := pols[1..];
      AppliesIs(pols[0], z1, z2);
      FirstPolicyIs(rest, z1, z2);
      assert forall i :: 1 <= i < |pols| ==> pols[i] == rest[i - 1];
      if IsFor(pols[0], z1, z2) {
        assert FirstFor(pols, z1, z2, 0);
      } else if FirstPolicy(rest, z1, z2).Some? {
        var i :| 0 <= i < |rest| && FirstFor(rest, z1, z2, i) && rest[i] == FirstPolicy(rest, z1, z2).value;
        assert FirstFor(pols, z1, z2, i + 1);
      }
    }
  }

  /** The policy of a pair is the first line for it; traffic within a zone is
      accepted when there is none, and any other pair has no policy. */
  lemma PolicyRead(cfg: Config, z1: string, z2: string, p: Policy)
    requires !CatchAllName(z1)
    ensures PolicyFor(cfg, z1, z2) == Some(p) <==>
            || (exists i :: 0 <= i < |cfg.policies| && FirstFor(cfg.policies, z1, z2, i) && cfg.policies[i] == p)
            || (z1 == z2 && p == Policy(z1, z2, PolAccept, false)
                && forall i :: 0 <= i < |cfg.policies| ==> !IsFor(cfg.policies[i], z1, z2))
    ensures PolicyFor(cfg, z1, z2) == None <==>
            z1 != z2 && forall i :: 0 <= i < |cfg.policies| ==> !IsFor(cfg.policies[i], z1, z2)
  {
    hide IsFor, FirstPolicy;
    FirstPolicyIs(cfg.policies, z1, z2);
    if i :| 0 <= i < |cfg.policies| && FirstFor(cfg.policies, z1, z2, i) && cfg.policies[i] == p {
      assert FirstPolicy(cfg.policies, z1, z2).Some?;
      var j :| 0 <= j < |cfg.policies| && FirstFor(cfg.policies, z1, z2, j)
               && cfg.policies[j] == FirstPolicy(cfg.policies, z1, z2).value;
      assert i == j;
    }
  }

  // ---------------------------------------------------------------- the verdict

  /** Nothing but the policy is there for this packet. */
  ghost predicate NoRuleDecides(cfg: Config, z1: string, z2: string, p: Packet) {
    forall sec :: FirstIn(cfg.rules, z1, z2, sec, p) == None
  }

  /** The first default action component that decides. */
  function Tail(components: Option<seq<Component>>, v: Verdict, p: Packet): Option<Verdict> {
    OrElse(if components.Some? then DefaultVerdict(components.value, p) else None, Some(v))
  }

  /** Which default action goes with which policy. */
  lemma DispositionRead(cfg: Config, pol: Policy, p: Packet)
    ensures pol.noDefault ==> Disposition(cfg, pol, p) == PolicyVerdict(pol.action)
    ensures !pol.noDefault ==> Disposition(cfg, pol, p) == Decision(cfg, pol.action, p)
  {
  }

  function Decision(cfg: Config, action: PolicyAction, p: Packet): Option<Verdict> {
    match action
    case PolDrop => Tail(cfg.dropDefault, Drop, p)
    case PolReject => Tail(cfg.rejectDefault, Reject, p)
    case PolAccept => Tail(cfg.acceptDefault, Accept, p)
    case PolQueue => Some(Queue)
    case PolContinue => None
    case PolNone => None
  }

  /** A new packet between two zones that no rule decides gets the verdict of the
      first policy line for the pair, after that verdict's default action. */
  lemma NewByPolicy(cfg: Config, z1: string, z2: string, i: nat, p: Packet)
    requires !CatchAllName(z1) && FirstFor(cfg.policies, z1, z2, i) && p.ct == CtNew && !(cfg.v6 && p.icmp6)
    requires NoRuleDecides(cfg, z1, z2, p) && !cfg.policies[i].noDefault
    ensures cfg.policies[i].action == PolAccept ==> PairMeaning(cfg, z1, z2, p) == Tail(cfg.acceptDefault, Accept, p)
    ensures cfg.policies[i].action == PolDrop ==> PairMeaning(cfg, z1, z2, p) == Tail(cfg.dropDefault, Drop, p)
    ensures cfg.policies[i].action == PolReject ==> PairMeaning(cfg, z1, z2, p) == Tail(cfg.rejectDefault, Reject, p)
  {
    hide PolicyFor, FirstIn, DefaultVerdict, IsFor;
    PolicyRead(cfg, z1, z2, cfg.policies[i]);
    DispositionRead(cfg, cfg.policies[i], p);
    assert FirstIn(cfg.rules, z1, z2, SecAll, p) == None && FirstIn(cfg.rules, z1, z2, SecNew, p) == None;
  }

  // -------------------------------------------------------------------- rules

  /** The rule is in the section, for the pair, meets the packet and decides it. */
  predicate Settles(r: FwRule, z1: string, z2: string, sec: Section, p: Packet) {
    && r.section == sec && r.source in [z1, "all"] && r.dest in [z2, "all"]
    && RuleMatches(r, p) && ActionVerdict(r.action, p).Some?
  }

  predicate FirstSettles(rules: seq<FwRule>, z1: string, z2: string, sec: Section, p: Packet, i: nat) {
    i < |rules| && Settles(rules[i], z1, z2, sec, p) && forall j :: 0 <= j < i ==> !Settles(rules[j], z1, z2, sec, p)
  }

  /** A section decides by the first rule in the file that settles the packet. */
  lemma {:induction false} SectionRead(rules: seq<FwRule>, z1: string, z2: string, sec: Section, p: Packet)
    ensures match FirstIn(rules, z1, z2, sec, p)
            case None => forall i :: 0 <= i < |rules| ==> !Settles(rules[i], z1, z2, sec, p)
            case Some(v) => exists i :: 0 <= i < |rules| && FirstSettles(rules, z1, z2, sec, p, i)
                              && ActionVerdict(rules[i].action, p) == Some(v)
  {
    hide RuleMatches, ActionVerdict;
    if rules != [] {
      var n := |rules| - 1;
      SectionRead(rules[..n], z1, z2, sec, p);
      assert forall i :: 0 <= i < n ==> rules[..n][i] == rules[i];
      if FirstIn(rules[..n], z1, z2, sec, p).Some? {
        var i :| 0 <= i < n && FirstSettles(rules[..n], z1, z2, sec, p, i)
                 && ActionVerdict(rules[..n][i].action, p) == FirstIn(rules[..n], z1, z2, sec, p);
        assert FirstSettles(rules, z1, z2, sec, p, i);
      } else if Settles(rules[n], z1, z2, sec, p) {
        assert FirstSettles(rules, z1, z2, sec, p, n);
      }
    }
  }

  // ------------------------------------------------------------ refused columns

  /** A configuration is refused for its columns exactly when some rule has an
      empty address column, or a MAC in its destination column. */
  lemma ColumnsRefused(cfg: Config)
    ensures !ColumnsOk(cfg) <==>
            exists i :: 0 <= i < |cfg.rules| && var r := cfg.rules[i];
              || (r.saddr.Some? && r.saddr.value.items == [])
              || (r.daddr.Some? && (r.daddr.value.items == [] || exists x :: x in r.daddr.value.items && x.Mac?))
  {
    forall i | 0 <= i < |cfg.rules|
      ensures !RuleColumnsOk(cfg.rules[i]) <==>
              var r := cfg.rules[i];
              || (r.saddr.Some? && r.saddr.value.items == [])
              || (r.daddr.Some? && (r.daddr.value.items == [] || exists x :: x in r.daddr.value.items && x.Mac?))
    {
      DestRefused(cfg.rules[i]);
    }
  }

  lemma DestRefused(r: FwRule)
    ensures r.daddr.Some? ==>
            (Accepted(r.daddr.value, Dest) <==>
             r.daddr.value.items != [] && forall x :: x in r.daddr.value.items ==> !x.Mac?)
  {
  }

  /** And for a missing policy exactly when two different zones that traffic can
      pass between have no line for them. */
  lemma PolicyMissing(cfg: Config)
    requires NamesOk(cfg)
    ensures !PoliciesOk(cfg) <==>
            exists x :: x in Pairs(cfg) && x.0 != x.1 && forall i :: 0 <= i < |cfg.policies| ==>
              !IsFor(cfg.policies[i], x.0, x.1)
  {
    hide PolicyFor, IsFor, Pairs, NetZones;
    PairsIn(cfg);
    NetZonesIn(cfg, cfg.zones);
    forall x | x in Pairs(cfg)
      ensures PolicyFor(cfg, x.0, x.1).None? <==>
              x.0 != x.1 && forall i :: 0 <= i < |cfg.policies| ==> !IsFor(cfg.policies[i], x.0, x.1)
    {
      PlainZone(cfg, x.0);
      PolicyRead(cfg, x.0, x.1, Policy(x.0, x.1, PolAccept, false));
    }
    if x :| x in Pairs(cfg) && PolicyFor(cfg, x.0, x.1).None? {
      var i :| 0 <= i < |Pairs(cfg)| && Pairs(cfg)[i] == x;
      assert !PoliciesOk(cfg);
    }
  }

  lemma PlainZone(cfg: Config, z: string)
    requires NamesOk(cfg) && z in cfg.zones
    ensures !CatchAllName(z)
  {
    var i :| 0 <= i < |cfg.zones| && cfg.zones[i] == z;
    assert ZoneNameOk(z);
    assert "all+"[3] == '+' && "any+"[3] == '+';
  }
}
