/** The compiler from the configuration to the filter table: what each chain
    contains, and the emitter that appends it line by line. */
module Emit {
  import opened Wrappers
  import opened Columns
  import opened Nft
  import opened Zones
  import opened Text

  // ------------------------------------------------------------ rule lines

  function ActionStmt(a: Action): Stmt {
    match a
    case ActAccept => Final(Accept)
    case ActDrop => Final(Drop)
    case ActReject => Jump("reject_action")
    case ActQueue => Final(Queue)
    case ActAllowIcmps => Jump("AllowICMPs")
  }

  function SrcTests(cs: seq<Clause>): (r: seq<Test>)
    ensures |r| == |cs| && forall i :: 0 <= i < |r| ==> r[i] == Src(cs[i])
  {
    seq(|cs|, i requires 0 <= i < |cs| => Src(cs[i]))
  }

  function DstTests(cs: seq<Clause>): (r: seq<Test>)
    ensures |r| == |cs| && forall i :: 0 <= i < |r| ==> r[i] == Dst(cs[i])
  {
    seq(|cs|, i requires 0 <= i < |cs| => Dst(cs[i]))
  }

  function ExtraTests(xs: seq<nat>): (r: seq<Test>)
    ensures |r| == |xs| && forall i :: 0 <= i < |r| ==> r[i] == Other(xs[i])
  {
    seq(|xs|, i requires 0 <= i < |xs| => Other(xs[i]))
  }

  function StateTests(st: Option<Ct>): seq<Test> {
    if st.None? then [] else [CtIs({st.value})]
  }

  /** A missing column is one alternative without clauses. */
  function ColumnAlternatives(c: Option<Column>): seq<seq<Clause>> {
    if c.None? then [[]] else Alternatives(c.value)
  }

  function RuleLine(r: FwRule, st: Option<Ct>, sa: seq<Clause>, da: seq<Clause>): Line {
    Rule(StateTests(st) + SrcTests(sa) + DstTests(da) + ExtraTests(r.extra), ActionStmt(r.action))
  }

  function LinesForSource(r: FwRule, st: Option<Ct>, sa: seq<Clause>, das: seq<seq<Clause>>): seq<Line> {
    if das == [] then []
    else LinesForSource(r, st, sa, das[..|das| - 1]) + [RuleLine(r, st, sa, das[|das| - 1])]
  }

  function LinesForSources(r: FwRule, st: Option<Ct>, sas: seq<seq<Clause>>, das: seq<seq<Clause>>): seq<Line> {
    if sas == [] then []
    else LinesForSources(r, st, sas[..|sas| - 1], das) + LinesForSource(r, st, sas[|sas| - 1], das)
  }

  /** One line per source and destination alternative. */
  function RuleLines(r: FwRule, st: Option<Ct>): seq<Line> {
    LinesForSources(r, st, ColumnAlternatives(r.saddr), ColumnAlternatives(r.daddr))
  }

  function SectionLines(rules: seq<FwRule>, z1: string, z2: string, sec: Section, st: Option<Ct>): seq<Line> {
    if rules == [] then []
    else
      var r := rules[|rules| - 1];
      SectionLines(rules[..|rules| - 1], z1, z2, sec, st)
      + if r.section == sec && Concerns(r, z1, z2) then RuleLines(r, st) else []
  }

  // ----------------------------------------------------------- chain bodies

  function Prelude(cfg: Config): seq<Line> {
    if cfg.v6 then [Rule([Icmp6], Jump("AllowICMPs"))] else []
  }

  function StateAccept(): seq<Line> {
    [Rule([CtIs({CtEstablished, CtRelated})], Final(Accept))]
  }

  function InvalidLines(d: InvalidDisposition): seq<Line> {
    match d
    case InvContinue => []
    case InvDrop => [Rule([CtIs({CtInvalid})], Final(Drop))]
    case InvReject => [Rule([CtIs({CtInvalid})], Jump("reject_action"))]
    case InvAuditDrop => [Rule([CtIs({CtInvalid})], Final(Drop))]
    case InvAuditReject => [Rule([CtIs({CtInvalid})], Jump("reject_action"))]
  }

  /** The default actions of the policies in use, and of the implicit ACCEPT. */
  function DefaultList(cfg: Config, actions: seq<PolicyAction>): seq<seq<Component>> {
    if actions == [] then []
    else
      var l, d := DefaultList(cfg, actions[..|actions| - 1]), DefaultFor(cfg, actions[|actions| - 1]);
      if d.Some? && d.value !in l then l + [d.value] else l
  }

  function PolicyActions(pols: seq<Policy>): (r: seq<PolicyAction>)
    ensures |r| == |pols| && forall i :: 0 <= i < |r| ==> r[i] == pols[i].action
  {
    seq(|pols|, i requires 0 <= i < |pols| => pols[i].action)
  }

  function Defaults(cfg: Config): seq<seq<Component>> {
    DefaultList(cfg, PolicyActions(cfg.policies) + [PolAccept])
  }

  function DefaultName(i: nat): string {
    "default_" + NatText(i)
  }

  function IndexOf<T(==)>(xs: seq<T>, x: T): Option<nat> {
    if xs == [] then None
    else
      var i := IndexOf(xs[..|xs| - 1], x);
      if i.Some? then i else if xs[|xs| - 1] == x then Some(|xs| - 1) else None
  }

  function DefaultLines(cfg: Config, pol: Policy): seq<Line> {
    var d := if pol.noDefault then None else DefaultFor(cfg, pol.action);
    if d.None? then []
    else
      var i := IndexOf(Defaults(cfg), d.value);
      if i.Some? then [Rule([], Jump(DefaultName(i.value)))] else []
  }

  function VerdictLines(a: PolicyAction): seq<Line> {
    match a
    case PolAccept => [Rule([], Final(Accept))]
    case PolDrop => [Rule([], Final(Drop))]
    case PolReject => [Rule([], Jump("reject_action"))]
    case PolQueue => [Rule([], Final(Queue))]
    case PolContinue => [Rule([], Return)]
    case PolNone => []
  }

  function DispositionLines(cfg: Config, pol: Policy): seq<Line> {
    DefaultLines(cfg, pol) + VerdictLines(pol.action)
  }

  /** The state ladder of a pair's own chain. */
  function PairLines(cfg: Config, z1: string, z2: string, pol: Policy): seq<Line> {
    Prelude(cfg)
    + SectionLines(cfg.rules, z1, z2, SecAll, None)
    + SectionLines(cfg.rules, z1, z2, SecEstablished, Some(CtEstablished))
    + SectionLines(cfg.rules, z1, z2, SecRelated, Some(CtRelated))
    + StateAccept()
    + SectionLines(cfg.rules, z1, z2, SecInvalid, Some(CtInvalid))
    + InvalidLines(cfg.invalid)
    + SectionLines(cfg.rules, z1, z2, SecUntracked, Some(CtUntracked))
    + SectionLines(cfg.rules, z1, z2, SecNew, None)
    + DispositionLines(cfg, pol)
  }

  /** A shared chain carries only a policy. */
  function PolicyLines(cfg: Config, pol: Policy): seq<Line> {
    Prelude(cfg) + StateAccept() + InvalidLines(cfg.invalid) + DispositionLines(cfg, pol)
  }

  // ------------------------------------------------------------ chain names

  function Plus(s: string): string {
    if s == [] then [] else (if s[0] == '+' then "plus" else [s[0]]) + Plus(s[1..])
  }

  function Named(z1: string, z2: string): string {
    z1 + "2" + z2
  }

  predicate HasRules(cfg: Config, z1: string, z2: string) {
    exists i :: 0 <= i < |cfg.rules| && Concerns(cfg.rules[i], z1, z2)
  }

  /** Pairs with rules, or with a policy of their own, get their own chain;
      pairs that only meet a wider policy share that policy's chain. */
  function ChainFor(cfg: Config, z1: string, z2: string): string {
    var pol := PolicyFor(cfg, z1, z2);
    if HasRules(cfg, z1, z2) || pol.None? || (pol.value.source == z1 && pol.value.dest == z2) then Named(z1, z2)
    else Named(Plus(pol.value.source), Plus(pol.value.dest))
  }

  function FwPairs(fw: string, nets: seq<string>): seq<(string, string)> {
    if nets == [] then []
    else FwPairs(fw, nets[..|nets| - 1]) + [(nets[|nets| - 1], fw), (fw, nets[|nets| - 1])]
  }

  function PairsFrom(cfg: Config, z1: string, nets: seq<string>): seq<(string, string)> {
    if nets == [] then []
    else
      var z2 := nets[|nets| - 1];
      PairsFrom(cfg, z1, nets[..|nets| - 1]) + if z1 != z2 || Routeback(cfg, z1) then [(z1, z2)] else []
  }

  function NetPairs(cfg: Config, nets: seq<string>): seq<(string, string)> {
    if nets == [] then []
    else NetPairs(cfg, nets[..|nets| - 1]) + PairsFrom(cfg, nets[|nets| - 1], NetZones(cfg))
  }

  function Pairs(cfg: Config): seq<(string, string)> {
    FwPairs(cfg.fw, NetZones(cfg)) + NetPairs(cfg, NetZones(cfg))
  }

  // --------------------------------------------------------------- dispatch

  predicate Scoped(cfg: Config, iface: string) {
    exists i :: 0 <= i < |cfg.hosts| && cfg.hosts[i].iface == iface
  }

  function SideChain(cfg: Config, hook: Hook, z: string): string {
    if hook == Input then ChainFor(cfg, z, cfg.fw) else ChainFor(cfg, cfg.fw, z)
  }

  function SideTests(hook: Hook, c: Claim): seq<Test> {
    (if hook == Input then [Iif(c.iface)] else [Oif(c.iface)])
    + if c.nets.None? then [] else if hook == Input then [SrcNets(c.nets.value)] else [DstNets(c.nets.value)]
  }

  /** Whole, unscoped interfaces go into a verdict map. */
  predicate Mapped(cfg: Config, c: Claim) {
    c.nets.None? && !Scoped(cfg, c.iface)
  }

  function SideEntries(cfg: Config, hook: Hook, cs: seq<Claim>): seq<(string, string)> {
    if cs == [] then []
    else
      var c := cs[|cs| - 1];
      SideEntries(cfg, hook, cs[..|cs| - 1]) + if Mapped(cfg, c) then [(c.iface, SideChain(cfg, hook, c.zone))] else []
  }

  function SideOrdered(cfg: Config, hook: Hook, cs: seq<Claim>): seq<(nat, Line)> {
    if cs == [] then []
    else
      var c := cs[|cs| - 1];
      SideOrdered(cfg, hook, cs[..|cs| - 1])
      + if Mapped(cfg, c) then []
        else [(if c.nets.Some? then 0 else 1, Rule(SideTests(hook, c), Jump(SideChain(cfg, hook, c.zone))))]
  }

  /** Python's stable sort by the first component. */
  function InsertByRank(s: seq<(nat, Line)>, x: (nat, Line)): seq<(nat, Line)> {
    if s == [] || s[|s| - 1].0 <= x.0 then s + [x]
    else InsertByRank(s[..|s| - 1], x) + [s[|s| - 1]]
  }

  function SortByRank(s: seq<(nat, Line)>): seq<(nat, Line)> {
    if s == [] then [] else InsertByRank(SortByRank(s[..|s| - 1]), s[|s| - 1])
  }

  function Seconds(s: seq<(nat, Line)>): (r: seq<Line>)
    ensures |r| == |s| && forall i :: 0 <= i < |r| ==> r[i] == s[i].1
  {
    seq(|s|, i requires 0 <= i < |s| => s[i].1)
  }

  function Dedup(ls: seq<Line>): seq<Line> {
    if ls == [] then []
    else
      var d := Dedup(ls[..|ls| - 1]);
      if ls[|ls| - 1] in d then d else d + [ls[|ls| - 1]]
  }

  function MapLine(hook: Hook, es: seq<(string, string)>): seq<Line> {
    if es == [] then [] else [if hook == Input then IifMap(es) else OifMap(es)]
  }

  function SideDispatch(cfg: Config, hook: Hook): seq<Line> {
    var cs := ClaimsOf(cfg, NetZones(cfg));
    MapLine(hook, SideEntries(cfg, hook, cs)) + Seconds(SortByRank(SideOrdered(cfg, hook, cs)))
  }

  predicate MappedPair(cfg: Config, c: (Claim, Claim)) {
    Mapped(cfg, c.0) && Mapped(cfg, c.1)
  }

  function PairChain(cfg: Config, c: (Claim, Claim)): string {
    ChainFor(cfg, c.0.zone, c.1.zone)
  }

  function PairEntries(cfg: Config, cs: seq<(Claim, Claim)>): seq<((string, string), string)> {
    if cs == [] then []
    else
      var c := cs[|cs| - 1];
      PairEntries(cfg, cs[..|cs| - 1])
      + if MappedPair(cfg, c) then [((c.0.iface, c.1.iface), PairChain(cfg, c))] else []
  }

  function PairOrdered(cfg: Config, cs: seq<(Claim, Claim)>): seq<(nat, Line)> {
    if cs == [] then []
    else
      var c := cs[|cs| - 1];
      PairOrdered(cfg, cs[..|cs| - 1])
      + if MappedPair(cfg, c) then []
        else [(Rank(c), Rule(SideTests(Input, c.0) + SideTests(Output, c.1), Jump(PairChain(cfg, c))))]
  }

  /** The plain cascade for kernels without concatenated maps. */
  function Cascade(es: seq<((string, string), string)>): (r: seq<Line>)
    ensures |r| == |es|
    ensures forall i :: 0 <= i < |r| ==> r[i] == Rule([Iif(es[i].0.0), Oif(es[i].0.1)], Jump(es[i].1))
  {
    seq(|es|, i requires 0 <= i < |es| => Rule([Iif(es[i].0.0), Oif(es[i].0.1)], Jump(es[i].1)))
  }

  function PairMapLines(cfg: Config, es: seq<((string, string), string)>): seq<Line> {
    if es == [] then [] else if cfg.concatMaps then [PairMap(es)] else Cascade(es)
  }

  function ForwardDispatch(cfg: Config): seq<Line> {
    var cs := PairClaims(cfg, NetZones(cfg));
    PairMapLines(cfg, PairEntries(cfg, cs)) + Dedup(Seconds(SortByRank(PairOrdered(cfg, cs))))
  }

  // --------------------------------------------------------------- the table

  function ComponentLines(c: Component): seq<Line> {
    match c
    case Broadcasts(v) => [Rule([DaddrType(Broadcast)], VerdictStmt(v)), Rule([DaddrType(Anycast)], VerdictStmt(v))]
    case Multicasts(v) => [Rule([DaddrType(Multicast)], VerdictStmt(v))]
    case NotSyns => [Rule([TcpNotSyn], Final(Drop))]
    case Invalids => [Rule([CtIs({CtInvalid})], Final(Drop))]
    case Icmps => [Rule([Icmp6], Jump("AllowICMPs"))]
  }

  function VerdictStmt(v: Verdict): Stmt {
    if v == Reject then Jump("reject_action") else Final(v)
  }

  function ComponentsLines(cs: seq<Component>): seq<Line> {
    if cs == [] then [] else ComponentsLines(cs[..|cs| - 1]) + ComponentLines(cs[|cs| - 1])
  }

  function PairBlocks(cfg: Config, pairs: seq<(string, string)>): seq<Block> {
    if pairs == [] then []
    else
      var (z1, z2) := pairs[|pairs| - 1];
      var pol := PolicyFor(cfg, z1, z2);
      PairBlocks(cfg, pairs[..|pairs| - 1])
      + if ChainFor(cfg, z1, z2) == Named(z1, z2) && pol.Some?
        then [Block(Named(z1, z2), 2, PairLines(cfg, z1, z2, pol.value))] else []
  }

  /** The shared chains, each with the last pair sent to it. */
  function Shared(cfg: Config, pairs: seq<(string, string)>): map<string, (string, string)> {
    if pairs == [] then map[]
    else
      var (z1, z2) := pairs[|pairs| - 1];
      var m := Shared(cfg, pairs[..|pairs| - 1]);
      var name := ChainFor(cfg, z1, z2);
      if name == Named(z1, z2) then m else m[name := (z1, z2)]
  }

  function SharedBlocks(cfg: Config, shared: map<string, (string, string)>, order: seq<string>): seq<Block>
    requires forall i :: 0 <= i < |order| ==> order[i] in shared
  {
    if order == [] then []
    else
      var name := order[|order| - 1];
      var pol := PolicyFor(cfg, shared[name].0, shared[name].1);
      SharedBlocks(cfg, shared, order[..|order| - 1])
      + if pol.Some? then [Block(name, 2, PolicyLines(cfg, pol.value))] else []
  }

  predicate UsesAllowIcmps(cfg: Config) {
    exists i :: 0 <= i < |cfg.rules| && cfg.rules[i].action == ActAllowIcmps
  }

  function Loopback(hook: Hook): seq<Line> {
    match hook
    case Input => [Rule([Iif("lo")], Final(Accept))]
    case Output => [Rule([Oif("lo")], Final(Accept))]
    case Forward => []
  }

  function FilterLines(fs: seq<Filter>, hook: Hook): seq<Line> {
    if fs == [] then []
    else
      var f := fs[|fs| - 1];
      FilterLines(fs[..|fs| - 1], hook) + if f.hook == hook then [Rule([Other(f.id)], VerdictStmt(f.verdict))] else []
  }

  function HookOpening(cfg: Config, hook: Hook): seq<Line> {
    Loopback(hook) + Prelude(cfg) + FilterLines(cfg.filters, hook)
  }

  function Dispatch(cfg: Config, hook: Hook): seq<Line> {
    if hook == Forward then ForwardDispatch(cfg) else SideDispatch(cfg, hook)
  }

  function HookBlock(cfg: Config, hook: Hook): Block {
    Block(HookName(hook), 3, HookOpening(cfg, hook) + Dispatch(cfg, hook))
  }

  function HookName(hook: Hook): string {
    match hook
    case Input => "input"
    case Output => "output"
    case Forward => "forward"
  }

  function HookBlocks(cfg: Config): seq<Block> {
    [HookBlock(cfg, Input), HookBlock(cfg, Output), HookBlock(cfg, Forward)]
  }

  function DefaultBlocks(ds: seq<seq<Component>>): seq<Block> {
    if ds == [] then []
    else DefaultBlocks(ds[..|ds| - 1]) + [Block(DefaultName(|ds| - 1), 1, ComponentsLines(ds[|ds| - 1]))]
  }

  function LeafBlocks(cfg: Config): seq<Block> {
    (if cfg.v6 || UsesAllowIcmps(cfg) then [Block("AllowICMPs", 0, [Rule([NeededIcmp], Final(Accept))])] else [])
    + [Block("reject_action", 0, [Rule([], Final(Reject))])]
  }

  function HelperBlocks(cfg: Config): seq<Block> {
    LeafBlocks(cfg) + DefaultBlocks(Defaults(cfg))
  }

  /** The emitted chains; `order` lists the shared chains. */
  function Blocks(cfg: Config, order: seq<string>): seq<Block>
    requires forall i :: 0 <= i < |order| ==> order[i] in Shared(cfg, Pairs(cfg))
  {
    HookBlocks(cfg) + PairBlocks(cfg, Pairs(cfg)) + SharedBlocks(cfg, Shared(cfg, Pairs(cfg)), order)
    + HelperBlocks(cfg)
  }

  ghost predicate Orders(order: seq<string>, m: map<string, (string, string)>) {
    && (forall i, j :: 0 <= i < j < |order| ==> order[i] != order[j])
    && (forall n :: n in order <==> n in m)
  }

  datatype Failure = BadColumn | NoPolicy

  predicate RuleColumnsOk(r: FwRule) {
    (r.saddr.Some? ==> Accepted(r.saddr.value, Source)) && (r.daddr.Some? ==> Accepted(r.daddr.value, Dest))
  }

  predicate ColumnsOk(cfg: Config) {
    forall i :: 0 <= i < |cfg.rules| ==> RuleColumnsOk(cfg.rules[i])
  }

  predicate PoliciesOk(cfg: Config) {
    forall i :: 0 <= i < |Pairs(cfg)| ==> PolicyFor(cfg, Pairs(cfg)[i].0, Pairs(cfg)[i].1).Some?
  }
}
