/** What a netmap line says: which lines are refused and why, and what the entry
    of an accepted one does to an address. */
module NetmapLines {
  import opened Wrappers
  import opened Netmap

  /** The address agrees with the prefix in all of its network bits. */
  predicate InCidr(width: nat, c: Cidr, x: nat) {
    x / Size(width, c.len) == c.addr / Size(width, c.len)
  }

  function NetOf(c: Cidr): Net {
    Net(c.addr, c.len)
  }

  lemma WithinIs(width: nat, c: Cidr, x: nat)
    requires Valid(width, NetOf(c))
    ensures Within(width, x, NetOf(c)) <==> InCidr(width, c, x)
  {
    var s := Size(width, c.len);
    var q := c.addr / s;
    assert c.addr == q * s by { Multiple(c.addr, s); }
    Quotient(x, s, q);
  }

  lemma Quotient(x: nat, s: nat, q: nat)
    requires s >= 1
    ensures x / s == q <==> q * s <= x < q * s + s
  {
    var d := x / s;
    assert x == d * s + x % s;
    assert (d + 1) * s == d * s + s && (q + 1) * s == q * s + s;
    MulOrder(q, d + 1, s);
    MulOrder(d, q + 1, s);
  }

  // --------------------------------------------------------- the checks of a line

  datatype Check = Check(ok: bool, error: Error)

  function FirstFailed(cs: seq<Check>): Option<Error> {
    if cs == [] then None else if !cs[0].ok then Some(cs[0].error) else FirstFailed(cs[1..])
  }

  function CidrChecks(six: bool, c: Cidr, allowZero: bool, requireCidr: bool): seq<Check> {
    [Check(requireCidr ==> c.slash, NoCidr), Check(Valid(Width(c.six), NetOf(c)), BadPrefix),
     Check(c.six == six, WrongFamily), Check(c.len == 0 ==> allowZero, ZeroPrefix)]
  }

  /** The prefix lies in one of these. */
  predicate InsideOne(six: bool, c: Cidr, inside: seq<Cidr>) {
    exists i :: 0 <= i < |inside| && SubnetOf(Width(six), NetOf(c), NetOf(inside[i]))
  }

  function ListChecks(six: bool, cs: seq<Cidr>, inside: seq<Cidr>, requireCidr: bool): seq<Check> {
    if cs == [] then []
    else
      var c := cs[|cs| - 1];
      ListChecks(six, cs[..|cs| - 1], inside, requireCidr)
      + (CidrChecks(six, c, true, requireCidr) + [Check(inside != [] ==> InsideOne(six, c, inside), Outside)])
  }

  /** All that is required of a line, in the order of its columns. */
  ghost function Checks(six: bool, ifaces: seq<Iface>, r: Raw): seq<Check> {
    [Check(r.token in TYPES, BadType)]
    + (CidrChecks(six, r.primary, false, true)
       + (ListChecks(six, r.excluded, [r.primary], true)
          + ([Check(exists name :: Denotes(ifaces, r.iface, name), BadInterface)]
             + (CidrChecks(six, r.net2, false, true)
                + ([Check(r.primary.len == r.net2.len, UnequalLengths)]
                   + (ListChecks(six, r.net3, [], false)
                      + ListChecks(six, r.net3Excluded, r.net3, false)))))))
  }

  /** The interface a column names: the first declared so, by its logical or
      physical name; else itself, if a declared wildcard covers it. */
  ghost predicate Denotes(ifaces: seq<Iface>, spec: string, name: string) {
    || (exists i :: 0 <= i < |ifaces| && FirstNamed(ifaces, spec, i) && name == ifaces[i].physical)
    || ((forall i :: 0 <= i < |ifaces| ==> spec !in [ifaces[i].logical, ifaces[i].physical])
        && name == spec && !Wild(spec)
        && exists i :: 0 <= i < |ifaces| && Wild(ifaces[i].physical) && NameMatches(ifaces[i].physical, spec))
  }

  predicate FirstNamed(ifaces: seq<Iface>, spec: string, i: nat) {
    i < |ifaces| && spec in [ifaces[i].logical, ifaces[i].physical]
    && forall j :: 0 <= j < i ==> spec !in [ifaces[j].logical, ifaces[j].physical]
  }

  lemma {:induction false} DeclaredIs(ifaces: seq<Iface>, spec: string)
    ensures match Declared(ifaces, spec)
            case None => forall i :: 0 <= i < |ifaces| ==> spec !in [ifaces[i].logical, ifaces[i].physical]
            case Some(name) =>
              exists i :: 0 <= i < |ifaces| && FirstNamed(ifaces, spec, i) && name == ifaces[i].physical
  {
    if ifaces != [] && spec !in [ifaces[0].logical, ifaces[0].physical] {
      var rest := ifaces[1..];
      DeclaredIs(rest, spec);
      match Declared(rest, spec)
      case None =>
        forall i | 0 <= i < |ifaces|
          ensures spec !in [ifaces[i].logical, ifaces[i].physical]
        {
          assert i > 0 ==> ifaces[i] == rest[i - 1];
        }
      case Some(name) =>
        var i :| 0 <= i < |rest| && FirstNamed(rest, spec, i) && name == rest[i].physical;
        assert ifaces[i + 1] == rest[i];
        forall j | 0 <= j < i + 1
          ensures spec !in [ifaces[j].logical, ifaces[j].physical]
        {
          assert j > 0 ==> ifaces[j] == rest[j - 1];
        }
        assert FirstNamed(ifaces, spec, i + 1);
    }
  }

  lemma ResolveIs(ifaces: seq<Iface>, spec: string)
    ensures match Resolve(ifaces, spec)
            case Ok(name) =>
              Denotes(ifaces, spec, name) && forall other :: Denotes(ifaces, spec, other) ==> other == name
            case Err(x) => x == BadInterface && forall name :: !Denotes(ifaces, spec, name)
  {
    hide Declared;
    DeclaredIs(ifaces, spec);
    LooseIs(ifaces, spec);
  }

  lemma LooseIs(ifaces: seq<Iface>, spec: string)
    ensures LooselyDeclared(ifaces, spec) <==>
            && !Wild(spec)
            && exists i :: 0 <= i < |ifaces| && Wild(ifaces[i].physical) && NameMatches(ifaces[i].physical, spec)
  {
  }

  lemma {:induction false} FirstFailedPlus(a: seq<Check>, b: seq<Check>)
    ensures FirstFailed(a + b) == if FirstFailed(a).Some? then FirstFailed(a) else FirstFailed(b)
  {
    if a == [] {
      assert a + b == b;
    } else {
      assert (a + b)[1..] == a[1..] + b;
      FirstFailedPlus(a[1..], b);
    }
  }

  lemma OneCheck(c: Check)
    ensures FirstFailed([c]) == if c.ok then None else Some(c.error)
  {
    assert [c][1..] == [];
  }

  lemma CidrChecked(six: bool, c: Cidr, allowZero: bool, requireCidr: bool)
    ensures match FirstFailed(CidrChecks(six, c, allowZero, requireCidr))
            case None => Network(six, c, allowZero, requireCidr) == Ok(NetOf(c)) && Valid(Width(six), NetOf(c))
            case Some(x) => Network(six, c, allowZero, requireCidr) == Err(x)
  {
    hide Valid;
    var cs := CidrChecks(six, c, allowZero, requireCidr);
    assert cs == [cs[0]] + ([cs[1]] + ([cs[2]] + [cs[3]]));
    FirstFailedPlus([cs[0]], [cs[1]] + ([cs[2]] + [cs[3]]));
    FirstFailedPlus([cs[1]], [cs[2]] + [cs[3]]);
    FirstFailedPlus([cs[2]], [cs[3]]);
    OneCheck(cs[0]);
    OneCheck(cs[1]);
    OneCheck(cs[2]);
    OneCheck(cs[3]);
  }

  function NetsOf(cs: seq<Cidr>): (ns: seq<Net>)
    ensures |ns| == |cs| && forall i :: 0 <= i < |ns| ==> ns[i] == NetOf(cs[i])
  {
    seq(|cs|, i requires 0 <= i < |cs| => NetOf(cs[i]))
  }

  lemma {:induction false} ListChecked(six: bool, cs: seq<Cidr>, inside: seq<Cidr>, requireCidr: bool)
    ensures match FirstFailed(ListChecks(six, cs, inside, requireCidr))
            case None =>
              && Networks(six, cs, NetsOf(inside), requireCidr) == Ok(NetsOf(cs))
              && (forall i :: 0 <= i < |cs| ==> Valid(Width(six), NetOf(cs[i])))
              && (inside != [] ==> forall i :: 0 <= i < |cs| ==> InsideOne(six, cs[i], inside))
            case Some(x) => Networks(six, cs, NetsOf(inside), requireCidr) == Err(x)
  {
    hide Network, SubnetOf, CidrChecks, FirstFailed, Valid;
    if cs == [] {
      assert NetsOf(cs) == [];
      NoneFailed();
    } else {
      var n := |cs| - 1;
      var c := cs[n];
      var last := Check(inside != [] ==> InsideOne(six, c, inside), Outside);
      ListChecked(six, cs[..n], inside, requireCidr);
      FirstFailedPlus(ListChecks(six, cs[..n], inside, requireCidr), CidrChecks(six, c, true, requireCidr) + [last]);
      FirstFailedPlus(CidrChecks(six, c, true, requireCidr), [last]);
      CidrChecked(six, c, true, requireCidr);
      OneCheck(last);
      InsideIs(six, c, inside);
      assert NetsOf(cs) == NetsOf(cs[..n]) + [NetOf(c)];
    }
  }

  lemma NoneFailed()
    ensures FirstFailed([]) == None
  {
  }

  lemma InsideIs(six: bool, c: Cidr, inside: seq<Cidr>)
    ensures InsideOne(six, c, inside) <==> exists o :: o in NetsOf(inside) && SubnetOf(Width(six), NetOf(c), o)
    ensures NetsOf(inside) == [] <==> inside == []
  {
    hide SubnetOf;
    if InsideOne(six, c, inside) {
      var i :| 0 <= i < |inside| && SubnetOf(Width(six), NetOf(c), NetOf(inside[i]));
      assert NetsOf(inside)[i] in NetsOf(inside);
    }
  }

  /** The lists a line must satisfy, and what becomes of a line that does. */
  ghost predicate Read(six: bool, r: Raw, iface: string, e: Entry) {
    e == Entry(KindOf(r.token), r.token, iface, NetOf(r.primary), NetOf(r.net2), NetsOf(r.excluded),
               Quals(NetsOf(r.net3), NetsOf(r.net3Excluded), r.proto, r.dport, r.sport))
  }

  /** A line is refused with the error of the first check it fails, and accepted
      when it fails none. */
  lemma LineRefused(six: bool, ifaces: seq<Iface>, r: Raw)
    ensures match FirstFailed(Checks(six, ifaces, r))
            case None => ParseEntry(six, ifaces, r).Ok?
            case Some(x) => ParseEntry(six, ifaces, r) == Err(x)
    ensures ParseEntry(six, ifaces, r).Ok? ==>
              exists iface :: Denotes(ifaces, r.iface, iface) && Read(six, r, iface, ParseEntry(six, ifaces, r).value)
  {
    hide Network, Networks, Resolve, Denotes, ListChecks, CidrChecks, FirstFailed, KindOf;
    var a, d, f := Check(r.token in TYPES, BadType),
        Check(exists name :: Denotes(ifaces, r.iface, name), BadInterface),
        Check(r.primary.len == r.net2.len, UnequalLengths);
    var b, c, g := CidrChecks(six, r.primary, false, true), ListChecks(six, r.excluded, [r.primary], true),
        CidrChecks(six, r.net2, false, true);
    var h, i := ListChecks(six, r.net3, [], false), ListChecks(six, r.net3Excluded, r.net3, false);
    FirstFailedPlus([a], b + (c + ([d] + (g + ([f] + (h + i))))));
    FirstFailedPlus(b, c + ([d] + (g + ([f] + (h + i)))));
    FirstFailedPlus(c, [d] + (g + ([f] + (h + i))));
    FirstFailedPlus([d], g + ([f] + (h + i)));
    FirstFailedPlus(g, [f] + (h + i));
    FirstFailedPlus([f], h + i);
    FirstFailedPlus(h, i);
    OneCheck(a);
    OneCheck(d);
    OneCheck(f);
    CidrChecked(six, r.primary, false, true);
    ListChecked(six, r.excluded, [r.primary], true);
    ResolveIs(ifaces, r.iface);
    CidrChecked(six, r.net2, false, true);
    ListChecked(six, r.net3, [], false);
    ListChecked(six, r.net3Excluded, r.net3, false);
    assert NetsOf([r.primary]) == [NetOf(r.primary)] && NetsOf([]) == [];
  }

  // ------------------------------------------------------- what an entry does

  /** The text before the first colon. */
  function BeforeColon(s: string): string {
    if s == "" || s[0] == ':' then "" else [s[0]] + BeforeColon(s[1..])
  }

  lemma KindIs(token: string)
    requires token in TYPES
    ensures KindOf(token) == if BeforeColon(token) == "SNAT" then SNAT else DNAT
    ensures BeforeColon(token) in ["SNAT", "DNAT"]
  {
    hide BeforeColon, KindOf;
    if |token| == 4 {
      KindWord(token, "");
      assert token + "" == token;
    } else {
      assert "SNAT:P"[..4] == "SNAT" && "SNAT:T"[..4] == "SNAT";
      assert "DNAT:P"[..4] == "DNAT" && "DNAT:T"[..4] == "DNAT";
      assert |token| == 6 && token[4] == ':' && token == token[..4] + token[4..];
      KindWord(token[..4], token[4..]);
    }
  }

  lemma KindWord(word: string, rest: string)
    requires word in ["SNAT", "DNAT"] && (rest != "" ==> rest[0] == ':')
    ensures BeforeColon(word + rest) == word && KindOf(word + rest) == if word == "SNAT" then SNAT else DNAT
  {
    hide BeforeColon;
    BeforeIs(word, rest);
    var t := word + rest;
    assert t[0] == word[0] && t[..4] == word;
    if word == "DNAT" {
      assert t[0] == 'D' && "SNAT"[0] == 'S';
    }
  }

  lemma {:induction false} BeforeIs(word: string, rest: string)
    requires ':' !in word && (rest != "" ==> rest[0] == ':')
    ensures BeforeColon(word + rest) == word
  {
    if word == "" {
      assert word + rest == rest;
    } else {
      assert word[0] in word && (word + rest)[1..] == word[1..] + rest;
      BeforeIs(word[1..], rest);
    }
  }

  /** The entry takes an address exactly when the line's columns do. */
  lemma EntryTakes(six: bool, ifaces: seq<Iface>, r: Raw, name: string, x: nat)
    requires ParseEntry(six, ifaces, r).Ok?
    ensures var e, w := ParseEntry(six, ifaces, r).value, Width(six);
      Applies(w, e, name, x) <==>
        && (exists iface :: Denotes(ifaces, r.iface, iface) && NameMatches(iface, name))
        && InCidr(w, r.primary, x) && forall c :: c in r.excluded ==> !InCidr(w, c, x)
  {
    hide ParseEntry, Checks, Denotes, NameMatches, Within, InCidr, Valid, CidrChecks, FirstFailed;
    LineRefused(six, ifaces, r);
    var e, w := ParseEntry(six, ifaces, r).value, Width(six);
    var iface :| Denotes(ifaces, r.iface, iface) && Read(six, r, iface, e);
    ResolveIs(ifaces, r.iface);
    LineChecks(six, ifaces, r);
    WithinIs(w, r.primary, x);
    ExclusionsIn(six, r.excluded, x);
  }

  lemma ExclusionsIn(six: bool, cs: seq<Cidr>, x: nat)
    requires forall i :: 0 <= i < |cs| ==> Valid(Width(six), NetOf(cs[i]))
    ensures (exists n :: n in NetsOf(cs) && Within(Width(six), x, n)) <==>
            exists c :: c in cs && InCidr(Width(six), c, x)
  {
    hide Valid, Within, InCidr;
    forall i | 0 <= i < |cs|
      ensures Within(Width(six), x, NetsOf(cs)[i]) <==> InCidr(Width(six), cs[i], x)
    {
      WithinIs(Width(six), cs[i], x);
    }
    if n :| n in NetsOf(cs) && Within(Width(six), x, n) {
      var i :| 0 <= i < |cs| && NetsOf(cs)[i] == n;
      assert cs[i] in cs;
    }
    if c :| c in cs && InCidr(Width(six), c, x) {
      var i :| 0 <= i < |cs| && cs[i] == c;
      assert NetsOf(cs)[i] in NetsOf(cs);
    }
  }

  /** What the checks of an accepted line come to. */
  lemma LineChecks(six: bool, ifaces: seq<Iface>, r: Raw)
    requires ParseEntry(six, ifaces, r).Ok?
    ensures var w := Width(six);
      && Valid(w, NetOf(r.primary)) && Valid(w, NetOf(r.net2)) && r.primary.len == r.net2.len && r.token in TYPES
      && (forall i :: 0 <= i < |r.excluded| ==>
            Valid(w, NetOf(r.excluded[i])) && SubnetOf(w, NetOf(r.excluded[i]), NetOf(r.primary)))
      && (forall i :: 0 <= i < |r.net3| ==> Valid(w, NetOf(r.net3[i])))
      && (forall i :: 0 <= i < |r.net3Excluded| ==>
            Valid(w, NetOf(r.net3Excluded[i])) && (r.net3 != [] ==> InsideOne(six, r.net3Excluded[i], r.net3)))
  {
    hide Network, Networks, Resolve, ListChecks, CidrChecks, FirstFailed, KindOf, SubnetOf, Valid;
    CidrChecked(six, r.primary, false, true);
    ListChecked(six, r.excluded, [r.primary], true);
    CidrChecked(six, r.net2, false, true);
    ListChecked(six, r.net3, [], false);
    ListChecked(six, r.net3Excluded, r.net3, false);
    assert NetsOf([r.primary]) == [NetOf(r.primary)] && NetsOf([]) == [];
  }

  /** It moves the address into NET2 and leaves its host bits alone. */
  lemma EntryMoves(six: bool, ifaces: seq<Iface>, r: Raw, x: nat)
    requires ParseEntry(six, ifaces, r).Ok? && InCidr(Width(six), r.primary, x)
    ensures var e, w := ParseEntry(six, ifaces, r).value, Width(six);
      var y, s := Translate(w, e, x), Size(w, r.primary.len);
      InCidr(w, r.net2, y) && y % s == x % s
  {
    hide ParseEntry, Checks, Denotes, Within, InCidr, Valid, CidrChecks, FirstFailed, Translate;
    LineRefused(six, ifaces, r);
    var e, w := ParseEntry(six, ifaces, r).value, Width(six);
    var iface :| Denotes(ifaces, r.iface, iface) && Read(six, r, iface, e);
    LineChecks(six, ifaces, r);
    WithinIs(w, r.primary, x);
    Bijection(w, e, x);
    WithinIs(w, r.net2, Translate(w, e, x));
  }

  /** The other columns: the kind, the qualifiers, and where exclusions may lie. */
  lemma EntrySays(six: bool, ifaces: seq<Iface>, r: Raw)
    requires ParseEntry(six, ifaces, r).Ok?
    ensures var e, w := ParseEntry(six, ifaces, r).value, Width(six);
      && (e.kind == SNAT <==> BeforeColon(r.token) == "SNAT") && e.token == r.token
      && e.quals.proto == r.proto && e.quals.dport == r.dport && e.quals.sport == r.sport
      && |e.quals.net3| == |r.net3| && |e.quals.exclusions| == |r.net3Excluded|
      && (forall x: nat, i :: 0 <= i < |r.net3| ==> (Within(w, x, e.quals.net3[i]) <==> InCidr(w, r.net3[i], x)))
      && (forall x: nat, i :: 0 <= i < |r.net3Excluded| ==>
            (Within(w, x, e.quals.exclusions[i]) <==> InCidr(w, r.net3Excluded[i], x)))
      && (forall x: nat, c :: c in r.excluded && InCidr(w, c, x) ==> InCidr(w, r.primary, x))
      && (forall x: nat, c :: c in r.net3Excluded && InCidr(w, c, x) && r.net3 != [] ==>
            exists o :: o in r.net3 && InCidr(w, o, x))
  {
    hide ParseEntry, Checks, Denotes, Within, InCidr, Valid, SubnetOf, CidrChecks, FirstFailed, KindOf, BeforeColon;
    LineRefused(six, ifaces, r);
    var e, w := ParseEntry(six, ifaces, r).value, Width(six);
    var iface :| Denotes(ifaces, r.iface, iface) && Read(six, r, iface, e);
    LineChecks(six, ifaces, r);
    KindIs(r.token);
    forall c, x: nat | Valid(w, NetOf(c))
      ensures Within(w, x, NetOf(c)) <==> InCidr(w, c, x)
    {
      WithinIs(w, c, x);
    }
    forall x: nat, c | c in r.excluded && InCidr(w, c, x)
      ensures InCidr(w, r.primary, x)
    {
      var i :| 0 <= i < |r.excluded| && r.excluded[i] == c;
      SubnetByAddresses(w, NetOf(c), NetOf(r.primary));
    }
    forall x: nat, c | c in r.net3Excluded && InCidr(w, c, x) && r.net3 != []
      ensures exists o :: o in r.net3 && InCidr(w, o, x)
    {
      var i :| 0 <= i < |r.net3Excluded| && r.net3Excluded[i] == c;
      var j :| 0 <= j < |r.net3| && SubnetOf(w, NetOf(c), NetOf(r.net3[j]));
      SubnetByAddresses(w, NetOf(c), NetOf(r.net3[j]));
      assert r.net3[j] in r.net3;
    }
  }

  /** The lines are read in order: all of them, or the error of the first bad one. */
  lemma {:induction false} FileRead(six: bool, ifaces: seq<Iface>, rs: seq<Raw>)
    ensures match ParseEntries(six, ifaces, rs)
            case Ok(es) => |es| == |rs| && forall i :: 0 <= i < |rs| ==> ParseEntry(six, ifaces, rs[i]) == Ok(es[i])
            case Err(x) =>
              exists i :: 0 <= i < |rs| && ParseEntry(six, ifaces, rs[i]) == Err(x)
                && forall j :: 0 <= j < i ==> ParseEntry(six, ifaces, rs[j]).Ok?
  {
    hide ParseEntry;
    if rs != [] {
      var n := |rs| - 1;
      FileRead(six, ifaces, rs[..n]);
      assert forall i :: 0 <= i < n ==> rs[..n][i] == rs[i];
    }
  }

  /** The types that are left once the cross-hook ones are refused. */
  lemma SupportedTypes(e: Entry)
    requires e.token in TYPES
    ensures !CrossHook(e) <==> e.token in ["SNAT", "DNAT", "SNAT:T", "DNAT:P"]
  {
    assert "SNAT:P"[5] == 'P' && "SNAT:T"[5] == 'T' && "DNAT:P"[5] == 'P' && "DNAT:T"[5] == 'T';
    assert "SNAT:P"[0] == 'S' && "SNAT:T"[0] == 'S' && "DNAT:P"[0] == 'D' && "DNAT:T"[0] == 'D';
  }

  /** A file is accepted exactly when no entry repeats an earlier one, whatever
      type it is written with, and none conflicts with an earlier one. */
  lemma AcceptedExactly(width: nat, es: seq<Entry>)
    ensures Accepted(width, es) <==>
            forall i, j :: 0 <= j < i < |es| ==>
              es[i].(token := "") != es[j].(token := "") && !Contradicts(width, es[i], es[j])
  {
    hide NetmapOverlap, Contradicts;
  }
}
