/** The fragment of nftables the filter table uses: chains of guarded
    statements, jumps, returns and verdict maps. */
module Nft {
  import opened Wrappers
  import opened Columns

  datatype Ct = CtNew | CtEstablished | CtRelated | CtInvalid | CtUntracked

  datatype AddrType = Unicast | Broadcast | Anycast | Multicast

  /** What a rule can observe of a packet. Address lists of the hosts file and
      all other rule matches are opaque: the packet says which ones it meets. */
  datatype Packet = Packet(
    iif: string, oif: string, ct: Ct, daddrType: AddrType,
    icmp6: bool, neededIcmp: bool, notSyn: bool,
    srcItems: set<Item>, dstItems: set<Item>,
    srcNets: set<string>, dstNets: set<string>, other: set<nat>)

  datatype Test =
    | Iif(name: string) | Oif(name: string)
    | SrcNets(nets: string) | DstNets(nets: string)
    | CtIs(states: set<Ct>) | Src(clause: Clause) | Dst(clause: Clause)
    | Other(id: nat) | DaddrType(kind: AddrType) | Icmp6 | NeededIcmp | TcpNotSyn

  datatype Verdict = Accept | Drop | Reject | Queue

  datatype Stmt = Final(v: Verdict) | Jump(chain: string) | Return

  datatype Line =
    | Rule(tests: seq<Test>, stmt: Stmt)
    | IifMap(entries: seq<(string, string)>)
    | OifMap(entries: seq<(string, string)>)
    | PairMap(pairs: seq<((string, string), string)>)

  /** One chain block as emitted; `level` orders hooks above pair chains above helpers. */
  datatype Block = Block(name: string, level: nat, lines: seq<Line>)

  datatype Chain = Chain(level: nat, lines: seq<Line>)

  type Table = map<string, Chain>

  /** Loading a file: a second block of the same name extends the first. */
  function Load(blocks: seq<Block>): Table {
    if blocks == [] then map[]
    else
      var t, b := Load(blocks[..|blocks| - 1]), blocks[|blocks| - 1];
      if b.name in t then t[b.name := Chain(t[b.name].level, t[b.name].lines + b.lines)]
      else t[b.name := Chain(b.level, b.lines)]
  }

  predicate Sat(t: Test, p: Packet) {
    match t
    case Iif(n) => p.iif == n
    case Oif(n) => p.oif == n
    case SrcNets(n) => n in p.srcNets
    case DstNets(n) => n in p.dstNets
    case CtIs(s) => p.ct in s
    case Src(c) => ClauseSat(c, p.srcItems)
    case Dst(c) => ClauseSat(c, p.dstItems)
    case Other(id) => id in p.other
    case DaddrType(k) => p.daddrType == k
    case Icmp6 => p.icmp6
    case NeededIcmp => p.neededIcmp
    case TcpNotSyn => p.notSyn
  }

  predicate SatAll(ts: seq<Test>, p: Packet) {
    forall i :: 0 <= i < |ts| ==> Sat(ts[i], p)
  }

  function Lookup<K(==)>(entries: seq<(K, string)>, key: K): Option<string> {
    if entries == [] then None
    else if entries[0].0 == key then Some(entries[0].1)
    else Lookup(entries[1..], key)
  }

  /** The statement a line executes on this packet, if any. */
  function Fired(l: Line, p: Packet): Option<Stmt> {
    match l
    case Rule(ts, s) => if SatAll(ts, p) then Some(s) else None
    case IifMap(es) => Jumped(Lookup(es, p.iif))
    case OifMap(es) => Jumped(Lookup(es, p.oif))
    case PairMap(es) => Jumped(Lookup(es, (p.iif, p.oif)))
  }

  function Jumped(c: Option<string>): Option<Stmt> {
    if c.Some? then Some(Jump(c.value)) else None
  }

  ghost predicate StmtOk(t: Table, s: Stmt, level: nat) {
    s.Jump? ==> s.chain in t && t[s.chain].level < level
  }

  ghost predicate LineOk(t: Table, l: Line, level: nat) {
    match l
    case Rule(_, s) => StmtOk(t, s, level)
    case IifMap(es) => forall i :: 0 <= i < |es| ==> StmtOk(t, Jump(es[i].1), level)
    case OifMap(es) => forall i :: 0 <= i < |es| ==> StmtOk(t, Jump(es[i].1), level)
    case PairMap(es) => forall i :: 0 <= i < |es| ==> StmtOk(t, Jump(es[i].1), level)
  }

  ghost predicate LinesOk(t: Table, ls: seq<Line>, level: nat) {
    forall i :: 0 <= i < |ls| ==> LineOk(t, ls[i], level)
  }

  /** Every jump lands on a declared chain of a lower level: the kernel accepts
      the table, and evaluation ends. */
  ghost predicate Layered(t: Table) {
    forall c :: c in t ==> LinesOk(t, t[c].lines, t[c].level)
  }

  lemma {:induction false} LookupIn<K>(entries: seq<(K, string)>, key: K)
    ensures Lookup(entries, key).Some? ==>
        exists i :: 0 <= i < |entries| && entries[i] == (key, Lookup(entries, key).value)
    ensures Lookup(entries, key).None? ==> forall i :: 0 <= i < |entries| ==> entries[i].0 != key
  {
    if entries != [] && entries[0].0 != key {
      LookupIn(entries[1..], key);
      if Lookup(entries, key).Some? {
        var i :| 0 <= i < |entries[1..]| && entries[1..][i] == (key, Lookup(entries, key).value);
        assert entries[i + 1] == (key, Lookup(entries, key).value);
      }
    }
  }

  lemma FiredOk(t: Table, l: Line, level: nat, p: Packet)
    requires LineOk(t, l, level)
    ensures Fired(l, p).Some? ==> StmtOk(t, Fired(l, p).value, level)
  {
    match l
    case Rule(_, _) =>
    case IifMap(es) => LookupIn(es, p.iif);
    case OifMap(es) => LookupIn(es, p.oif);
    case PairMap(es) => LookupIn(es, (p.iif, p.oif));
  }

  /** How a list of lines ends: with a verdict, with `return`, or by falling off. */
  datatype Outcome = Decided(v: Verdict) | Returned | Fell

  ghost function Eval(t: Table, ls: seq<Line>, level: nat, p: Packet): Outcome
    requires Layered(t) && LinesOk(t, ls, level)
    decreases level, |ls|
  {
    if ls == [] then Fell
    else
      FiredOk(t, ls[0], level, p);
      var rest := Eval(t, ls[1..], level, p);
      match Fired(ls[0], p)
      case None => rest
      case Some(Final(v)) => Decided(v)
      case Some(Return) => Returned
      case Some(Jump(c)) =>
        var o := Eval(t, t[c].lines, t[c].level, p);
        if o.Decided? then o else rest
  }

  /** What calling a chain comes to: a verdict, or control back to the caller. */
  ghost function Call(t: Table, c: string, p: Packet): Option<Verdict>
    requires Layered(t) && c in t
  {
    var o := Eval(t, t[c].lines, t[c].level, p);
    if o.Decided? then Some(o.v) else None
  }

  /** A base chain with policy drop. */
  ghost function HookVerdict(t: Table, hook: string, p: Packet): Verdict
    requires Layered(t) && hook in t
  {
    var v := Call(t, hook, p);
    if v.Some? then v.value else Drop
  }

  lemma {:induction false} EvalConcat(t: Table, xs: seq<Line>, ys: seq<Line>, level: nat, p: Packet)
    requires Layered(t) && LinesOk(t, xs, level) && LinesOk(t, ys, level)
    ensures LinesOk(t, xs + ys, level)
    ensures Eval(t, xs + ys, level, p)
         == if Eval(t, xs, level, p).Fell? then Eval(t, ys, level, p) else Eval(t, xs, level, p)
    decreases |xs|
  {
    assert LinesOk(t, xs + ys, level);
    if xs == [] {
      assert xs + ys == ys;
    } else {
      assert (xs + ys)[1..] == xs[1..] + ys;
      EvalConcat(t, xs[1..], ys, level, p);
      FiredOk(t, xs[0], level, p);
    }
  }

  /** A single line. */
  lemma EvalOne(t: Table, l: Line, level: nat, p: Packet)
    requires Layered(t) && LineOk(t, l, level)
    ensures LinesOk(t, [l], level)
    ensures Eval(t, [l], level, p) ==
      match Fired(l, p)
      case None => Fell
      case Some(Final(v)) => Decided(v)
      case Some(Return) => Returned
      case Some(Jump(c)) =>
        (FiredOk(t, l, level, p);
        if Call(t, c, p).Some? then Decided(Call(t, c, p).value) else Fell)
  {
    FiredOk(t, l, level, p);
  }
}
