/** Prefix translation: the netmap file's checks, and why an accepted file
    translates every address one way. */
module Netmap {
  import opened Wrappers

  // ------------------------------------------------------------------ prefixes

  function Pow2(n: nat): (r: nat)
    ensures r >= 1
  {
    if n == 0 then 1 else 2 * Pow2(n - 1)
  }

  /** A prefix in a family of `width` address bits. */
  datatype Net = Net(base: nat, len: nat)

  function Size(width: nat, len: nat): (r: nat)
    ensures r >= 1
  {
    if len <= width then Pow2(width - len) else 1
  }

  predicate Valid(width: nat, n: Net) {
    n.len <= width && n.base % Size(width, n.len) == 0
  }

  predicate Within(width: nat, x: nat, n: Net) {
    n.base <= x < n.base + Size(width, n.len)
  }

  predicate SubnetOf(width: nat, a: Net, b: Net) {
    b.base <= a.base && a.base + Size(width, a.len) <= b.base + Size(width, b.len)
  }

  predicate Overlaps(width: nat, a: Net, b: Net) {
    Within(width, a.base, b) || Within(width, a.base + Size(width, a.len) - 1, b)
    || Within(width, b.base, a) || Within(width, b.base + Size(width, b.len) - 1, a)
  }

  lemma {:induction false} Pow2Plus(a: nat, b: nat)
    ensures Pow2(a + b) == Pow2(a) * Pow2(b)
  {
    if a != 0 {
      Pow2Plus(a - 1, b);
      assert 2 * (Pow2(a - 1) * Pow2(b)) == (2 * Pow2(a - 1)) * Pow2(b);
    }
  }

  lemma MulOrder(a: int, b: int, s: nat)
    requires s >= 1
    ensures a <= b ==> a * s <= b * s
    ensures a * s < b * s ==> a < b
  {
    if a <= b {
      assert (b - a) * s >= 0;
    }
    if b <= a {
      assert (a - b) * s >= 0;
    }
  }

  /** An aligned block that meets an aligned block m times its size lies inside it. */
  lemma BlockNest(s: nat, m: nat, i: nat, j: nat, x: nat)
    requires s >= 1 && m >= 1
    requires i * s <= x < i * s + s && j * (m * s) <= x < j * (m * s) + m * s
    ensures j * (m * s) <= i * s && i * s + s <= j * (m * s) + m * s
  {
    assert j * (m * s) == (j * m) * s && j * (m * s) + m * s == (j * m + m) * s && i * s + s == (i + 1) * s;
    MulOrder(j * m, i + 1, s);
    MulOrder(i, j * m + m, s);
    MulOrder(j * m, i, s);
    MulOrder(i + 1, j * m + m, s);
  }

  /** CIDR nesting (section 3.1 of RFC 4632): of two prefixes with an address
      in common, the longer lies inside the shorter. */
  lemma Nesting(width: nat, a: Net, b: Net, x: nat)
    requires Valid(width, a) && Valid(width, b) && b.len <= a.len
    requires Within(width, x, a) && Within(width, x, b)
    ensures SubnetOf(width, a, b)
  {
    hide Pow2;
    var s, m := Size(width, a.len), Pow2(a.len - b.len);
    Pow2Plus(a.len - b.len, width - a.len);
    Multiple(a.base, s);
    Multiple(b.base, m * s);
    BlockNest(s, m, a.base / s, b.base / (m * s), x);
  }

  lemma Multiple(n: nat, s: nat)
    requires s >= 1 && n % s == 0
    ensures n == (n / s) * s
  {
  }

  lemma OverlapCommon(width: nat, a: Net, b: Net)
    ensures Overlaps(width, a, b) <==> exists x :: Within(width, x, a) && Within(width, x, b)
  {
    if Overlaps(width, a, b) {
      var x := if a.base <= b.base then b.base else a.base;
      assert Within(width, x, a) && Within(width, x, b);
    }
    if x :| Within(width, x, a) && Within(width, x, b) {
      assert Within(width, a.base, b) || Within(width, b.base, a);
    }
  }

  /** A prefix lies inside another exactly when its addresses do. */
  lemma SubnetByAddresses(width: nat, a: Net, b: Net)
    ensures SubnetOf(width, a, b) <==> forall x :: Within(width, x, a) ==> Within(width, x, b)
  {
    if forall x :: Within(width, x, a) ==> Within(width, x, b) {
      assert Within(width, a.base, a) && Within(width, a.base + Size(width, a.len) - 1, a);
      assert Within(width, a.base, b) && Within(width, a.base + Size(width, a.len) - 1, b);
    }
  }

  // -------------------------------------------------------------------- entries

  datatype Kind = SNAT | DNAT

  /** The columns that narrow an entry to some of the traffic. */
  datatype Quals = Quals(net3: seq<Net>, exclusions: seq<Net>, proto: string, dport: string, sport: string)

  datatype Entry = Entry(
    kind: Kind, token: string, iface: string, net1: Net, net2: Net, exclusions: seq<Net>, quals: Quals)

  /** A trailing + matches every name with that beginning. */
  predicate NameMatches(pattern: string, name: string) {
    if pattern != [] && pattern[|pattern| - 1] == '+' then pattern[..|pattern| - 1] <= name else pattern == name
  }

  predicate Applies(width: nat, e: Entry, iface: string, x: nat) {
    NameMatches(e.iface, iface) && Within(width, x, e.net1)
    && forall ex :: ex in e.exclusions ==> !Within(width, x, ex)
  }

  /** The network bits of NET2, the host bits of the address. */
  function Translate(width: nat, e: Entry, x: nat): nat {
    e.net2.base + x % Size(width, e.net1.len)
  }

  predicate Wild(pattern: string) {
    pattern != [] && pattern[|pattern| - 1] == '+'
  }

  predicate IfaceOverlap(a: string, b: string) {
    a == b || (Wild(a) && a[..|a| - 1] <= b) || (Wild(b) && b[..|b| - 1] <= a)
  }

  /** Two interface patterns overlap exactly when some name matches both. */
  lemma IfaceOverlapExact(a: string, b: string)
    ensures IfaceOverlap(a, b) <==> exists name :: NameMatches(a, name) && NameMatches(b, name)
  {
    var pa, pb := if Wild(a) then a[..|a| - 1] else a, if Wild(b) then b[..|b| - 1] else b;
    if IfaceOverlap(a, b) {
      var name := if |pa| <= |pb| then pb else pa;
      assert NameMatches(a, name) && NameMatches(b, name);
    }
    if name :| NameMatches(a, name) && NameMatches(b, name) {
      assert pa <= name && pb <= name;
      if |pa| <= |pb| {
        assert pa == name[..|pa|] == pb[..|pa|];
        assert Wild(a) ==> a[..|a| - 1] <= b;
      } else {
        assert pb == name[..|pb|] == pa[..|pb|];
        assert Wild(b) ==> b[..|b| - 1] <= a;
      }
    }
  }

  /** Both prefixes have addresses in common, and no one exclusion takes them all. */
  predicate NetmapOverlap(width: nat, a: Entry, b: Entry) {
    if !Overlaps(width, a.net1, b.net1) then false
    else
      var both := if SubnetOf(width, a.net1, b.net1) then a.net1 else b.net1;
      && (forall ex :: ex in a.exclusions ==> !SubnetOf(width, both, ex))
      && (forall ex :: ex in b.exclusions ==> !SubnetOf(width, both, ex))
  }

  predicate Common(width: nat, a: Entry, b: Entry, x: nat) {
    Within(width, x, a.net1) && Within(width, x, b.net1)
  }

  lemma SmallerIsCommon(width: nat, a: Entry, b: Entry, x: nat)
    requires Valid(width, a.net1) && Valid(width, b.net1) && Overlaps(width, a.net1, b.net1)
    ensures Within(width, x, if SubnetOf(width, a.net1, b.net1) then a.net1 else b.net1) <==> Common(width, a, b, x)
  {
    hide Valid, Overlaps, Size;
    OverlapCommon(width, a.net1, b.net1);
    var y :| Within(width, y, a.net1) && Within(width, y, b.net1);
    if b.net1.len <= a.net1.len {
      Nesting(width, a.net1, b.net1, y);
    } else {
      Nesting(width, b.net1, a.net1, y);
    }
  }

  /** The overlap test, in addresses: the two share an address, and no single
      exclusion of either holds every shared one. */
  lemma OverlapExact(width: nat, a: Entry, b: Entry)
    requires Valid(width, a.net1) && Valid(width, b.net1)
    ensures NetmapOverlap(width, a, b) <==>
            && (exists x :: Common(width, a, b, x))
            && (forall ex :: ex in a.exclusions || ex in b.exclusions ==>
                  exists x :: Common(width, a, b, x) && !Within(width, x, ex))
  {
    hide Valid, Overlaps, Within, SubnetOf, Common, Size;
    OverlapCommon(width, a.net1, b.net1);
    CommonMeans(width, a, b);
    if Overlaps(width, a.net1, b.net1) {
      var both := if SubnetOf(width, a.net1, b.net1) then a.net1 else b.net1;
      forall x
        ensures Within(width, x, both) <==> Common(width, a, b, x)
      {
        SmallerIsCommon(width, a, b, x);
      }
      forall ex
        ensures SubnetOf(width, both, ex) <==> forall x :: Common(width, a, b, x) ==> Within(width, x, ex)
      {
        SubnetByAddresses(width, both, ex);
      }
    }
  }

  lemma CommonMeans(width: nat, a: Entry, b: Entry)
    ensures forall x :: Common(width, a, b, x) <==> Within(width, x, a.net1) && Within(width, x, b.net1)
  {
  }

  // ----------------------------------------------------------------- validation

  datatype Error =
    | BadType | NoCidr | BadPrefix | WrongFamily | ZeroPrefix | Outside | BadInterface | UnequalLengths
    | Duplicate(entry: nat, prior: nat) | Conflict(entry: nat, prior: nat) | Unsupported(entry: nat)

  predicate SameMatch(a: Entry, b: Entry) {
    a.kind == b.kind && a.quals == b.quals
  }

  predicate SameTranslation(a: Entry, b: Entry) {
    a.net1 == b.net1 && a.net2 == b.net2 && a.exclusions == b.exclusions
  }

  predicate Repeats(e: Entry, prior: Entry) {
    SameMatch(e, prior) && IfaceOverlap(e.iface, prior.iface) && e.iface == prior.iface && SameTranslation(e, prior)
  }

  predicate Contradicts(width: nat, e: Entry, prior: Entry) {
    SameMatch(e, prior) && IfaceOverlap(e.iface, prior.iface) && NetmapOverlap(width, e, prior) && e.net2 != prior.net2
  }

  predicate PairOk(width: nat, e: Entry, prior: Entry) {
    !Repeats(e, prior) && !Contradicts(width, e, prior)
  }

  predicate Accepted(width: nat, es: seq<Entry>) {
    forall i, j :: 0 <= j < i < |es| ==> PairOk(width, es[i], es[j])
  }

  /** Every pair before (i, j), in the order they are compared, is fine. */
  predicate OkBefore(width: nat, es: seq<Entry>, i: nat, j: nat) {
    forall a, b :: 0 <= b < a < |es| && (a < i || (a == i && b < j)) ==> PairOk(width, es[a], es[b])
  }

  method ValidateConflicts(width: nat, es: seq<Entry>) returns (bad: Option<Error>)
    ensures bad.None? <==> Accepted(width, es)
    ensures bad.Some? ==> bad.value.Duplicate? || bad.value.Conflict?
    ensures bad.Some? ==> bad.value.prior < bad.value.entry < |es|
                          && OkBefore(width, es, bad.value.entry, bad.value.prior)
                          && !PairOk(width, es[bad.value.entry], es[bad.value.prior])
                          && (if bad.value.Duplicate? then Repeats(es[bad.value.entry], es[bad.value.prior])
                              else !Repeats(es[bad.value.entry], es[bad.value.prior])
                                   && Contradicts(width, es[bad.value.entry], es[bad.value.prior]))
  {
    hide IfaceOverlap, NetmapOverlap, SameTranslation, SameMatch;
    for i := 0 to |es|
      invariant OkBefore(width, es, i, 0)
    {
      for j := 0 to i
        invariant OkBefore(width, es, i, j)
      {
        var e, prior := es[i], es[j];
        if SameMatch(e, prior) && IfaceOverlap(e.iface, prior.iface) {
          if e.iface == prior.iface && SameTranslation(e, prior) {
            return Some(Duplicate(i, j));
          }
          if NetmapOverlap(width, e, prior) && e.net2 != prior.net2 {
            return Some(Conflict(i, j));
          }
        }
      }
    }
    return None;
  }

  // --------------------------------------------------------------- no ambiguity

  predicate Sound(width: nat, e: Entry) {
    Valid(width, e.net1) && Valid(width, e.net2) && e.net1.len == e.net2.len
  }

  lemma SamePrefix(width: nat, a: Net, b: Net, x: nat)
    requires Valid(width, a) && Valid(width, b) && a.len == b.len && Within(width, x, a) && Within(width, x, b)
    ensures a == b
  {
    Nesting(width, a, b, x);
    Nesting(width, b, a, x);
  }

  /** Two entries of an accepted file with the same kind and qualifiers that
      both take an address on an interface translate it alike. */
  lemma NoAmbiguity(width: nat, es: seq<Entry>, i: nat, j: nat, iface: string, x: nat)
    requires Accepted(width, es) && j < i < |es| && Sound(width, es[i]) && Sound(width, es[j])
    requires SameMatch(es[i], es[j]) && Applies(width, es[i], iface, x) && Applies(width, es[j], iface, x)
    ensures es[i].net1 == es[j].net1 && Translate(width, es[i], x) == Translate(width, es[j], x)
  {
    hide Valid, Within, IfaceOverlap, NetmapOverlap, NameMatches, Size;
    var a, b := es[i], es[j];
    assert PairOk(width, a, b);
    IfaceOverlapExact(a.iface, b.iface);
    OverlapExact(width, a, b);
    assert Common(width, a, b, x);
    SamePrefix(width, a.net1, b.net1, x);
  }

  /** What the first entry of this kind and these qualifiers makes of an address. */
  function Outcome(width: nat, es: seq<Entry>, kind: Kind, q: Quals, iface: string, x: nat): Option<nat> {
    if es == [] then None
    else if Takes(width, es[0], kind, q, iface, x) then Some(Translate(width, es[0], x))
    else Outcome(width, es[1..], kind, q, iface, x)
  }

  predicate Takes(width: nat, e: Entry, kind: Kind, q: Quals, iface: string, x: nat) {
    e.kind == kind && e.quals == q && Applies(width, e, iface, x)
  }

  lemma {:induction false} OutcomeFrom(width: nat, es: seq<Entry>, kind: Kind, q: Quals, iface: string, x: nat)
    ensures match Outcome(width, es, kind, q, iface, x)
            case None => forall e :: e in es ==> !Takes(width, e, kind, q, iface, x)
            case Some(y) => exists e :: e in es && Takes(width, e, kind, q, iface, x) && Translate(width, e, x) == y
  {
    hide Applies, Translate;
    if es != [] {
      OutcomeFrom(width, es[1..], kind, q, iface, x);
      assert es[0] in es;
    }
  }

  lemma AlikeInFile(width: nat, es: seq<Entry>, a: Entry, b: Entry, kind: Kind, q: Quals, iface: string, x: nat)
    requires Accepted(width, es) && (forall e :: e in es ==> Sound(width, e)) && a in es && b in es
    requires Takes(width, a, kind, q, iface, x) && Takes(width, b, kind, q, iface, x)
    ensures Translate(width, a, x) == Translate(width, b, x)
  {
    hide Accepted, Applies, Translate, Sound;
    var i :| 0 <= i < |es| && es[i] == a;
    var j :| 0 <= j < |es| && es[j] == b;
    if i < j {
      NoAmbiguity(width, es, j, i, iface, x);
    } else if j < i {
      NoAmbiguity(width, es, i, j, iface, x);
    }
  }

  /** So the order of an accepted file's entries cannot matter. */
  lemma OrderIrrelevant(
      width: nat, es: seq<Entry>, fs: seq<Entry>, kind: Kind, q: Quals, iface: string, x: nat)
    requires Accepted(width, es) && (forall e :: e in es ==> Sound(width, e)) && multiset(es) == multiset(fs)
    ensures Outcome(width, es, kind, q, iface, x) == Outcome(width, fs, kind, q, iface, x)
  {
    hide Accepted, Takes, Translate, Sound, Outcome;
    OutcomeFrom(width, es, kind, q, iface, x);
    OutcomeFrom(width, fs, kind, q, iface, x);
    assert forall e :: e in es <==> e in multiset(es);
    assert forall e :: e in fs <==> e in multiset(fs);
    var o, p := Outcome(width, es, kind, q, iface, x), Outcome(width, fs, kind, q, iface, x);
    if o.Some? && p.Some? {
      var a :| a in es && Takes(width, a, kind, q, iface, x) && Translate(width, a, x) == o.value;
      var b :| b in fs && Takes(width, b, kind, q, iface, x) && Translate(width, b, x) == p.value;
      assert b in es;
      AlikeInFile(width, es, a, b, kind, q, iface, x);
    }
  }

  // ------------------------------------------------- across the qualifiers

  /** The entry takes the packet; `meets` says which qualifiers the packet meets. */
  predicate Met(width: nat, e: Entry, kind: Kind, meets: Quals -> bool, iface: string, x: nat) {
    e.kind == kind && meets(e.quals) && Applies(width, e, iface, x)
  }

  /** The whole chain of a kind: the first entry that takes the packet translates it. */
  function FirstHit(width: nat, es: seq<Entry>, kind: Kind, meets: Quals -> bool, iface: string, x: nat): Option<nat> {
    if es == [] then None
    else if Met(width, es[0], kind, meets, iface, x) then Some(Translate(width, es[0], x))
    else FirstHit(width, es[1..], kind, meets, iface, x)
  }

  /** No reordering of the file changes what becomes of the packet. */
  ghost predicate OrderFree(width: nat, es: seq<Entry>, kind: Kind, meets: Quals -> bool, iface: string, x: nat) {
    forall fs :: multiset(fs) == multiset(es) ==>
      FirstHit(width, fs, kind, meets, iface, x) == FirstHit(width, es, kind, meets, iface, x)
  }

  /** Two entries whose qualifiers differ take the packet and translate it differently. */
  predicate Torn(width: nat, es: seq<Entry>, kind: Kind, meets: Quals -> bool, iface: string, x: nat) {
    exists a, b :: a in es && b in es && a.quals != b.quals
      && Met(width, a, kind, meets, iface, x) && Met(width, b, kind, meets, iface, x)
      && Translate(width, a, x) != Translate(width, b, x)
  }

  lemma {:induction false} FirstHitFrom(width: nat, es: seq<Entry>, kind: Kind, meets: Quals -> bool, iface: string,
      x: nat)
    ensures match FirstHit(width, es, kind, meets, iface, x)
            case None => forall e :: e in es ==> !Met(width, e, kind, meets, iface, x)
            case Some(y) => exists e :: e in es && Met(width, e, kind, meets, iface, x) && Translate(width, e, x) == y
  {
    hide Met, Translate;
    if es != [] {
      FirstHitFrom(width, es[1..], kind, meets, iface, x);
      assert es[0] in es;
    }
  }

  /** Any entry that takes the packet can be made the first. */
  lemma PutFirst(width: nat, es: seq<Entry>, a: Entry, kind: Kind, meets: Quals -> bool, iface: string, x: nat)
    requires a in es && Met(width, a, kind, meets, iface, x) && OrderFree(width, es, kind, meets, iface, x)
    ensures FirstHit(width, es, kind, meets, iface, x) == Some(Translate(width, a, x))
  {
    hide Met, Translate, FirstHit;
    var i :| 0 <= i < |es| && es[i] == a;
    MovedFirst(es, i);
    HitFirst(width, a, es[..i] + es[i + 1..], kind, meets, iface, x);
  }

  lemma MovedFirst(es: seq<Entry>, i: nat)
    requires i < |es|
    ensures multiset([es[i]] + (es[..i] + es[i + 1..])) == multiset(es)
  {
    assert es == es[..i] + [es[i]] + es[i + 1..];
  }

  lemma HitFirst(width: nat, a: Entry, rest: seq<Entry>, kind: Kind, meets: Quals -> bool, iface: string, x: nat)
    requires Met(width, a, kind, meets, iface, x)
    ensures FirstHit(width, [a] + rest, kind, meets, iface, x) == Some(Translate(width, a, x))
  {
    hide Met, Translate;
  }

  lemma AlikeUnlessTorn(
      width: nat, es: seq<Entry>, a: Entry, b: Entry, kind: Kind, meets: Quals -> bool, iface: string, x: nat)
    requires Accepted(width, es) && (forall e :: e in es ==> Sound(width, e)) && a in es && b in es
    requires Met(width, a, kind, meets, iface, x) && Met(width, b, kind, meets, iface, x)
    requires !Torn(width, es, kind, meets, iface, x)
    ensures Translate(width, a, x) == Translate(width, b, x)
  {
    hide Accepted, Applies, Translate, Sound;
    if a.quals == b.quals {
      AlikeInFile(width, es, a, b, kind, a.quals, iface, x);
    }
  }

  /** The order of an accepted file matters to a packet exactly when two entries
      with different qualifiers take it and translate it differently. */
  lemma OrderExactly(width: nat, es: seq<Entry>, kind: Kind, meets: Quals -> bool, iface: string, x: nat)
    requires Accepted(width, es) && forall e :: e in es ==> Sound(width, e)
    ensures OrderFree(width, es, kind, meets, iface, x) <==> !Torn(width, es, kind, meets, iface, x)
  {
    hide Accepted, Met, Translate, Sound, FirstHit;
    if OrderFree(width, es, kind, meets, iface, x) && Torn(width, es, kind, meets, iface, x) {
      var a, b :| a in es && b in es && a.quals != b.quals
        && Met(width, a, kind, meets, iface, x) && Met(width, b, kind, meets, iface, x)
        && Translate(width, a, x) != Translate(width, b, x);
      PutFirst(width, es, a, kind, meets, iface, x);
      PutFirst(width, es, b, kind, meets, iface, x);
    }
    if !Torn(width, es, kind, meets, iface, x) {
      forall fs | multiset(fs) == multiset(es)
        ensures FirstHit(width, fs, kind, meets, iface, x) == FirstHit(width, es, kind, meets, iface, x)
      {
        SameHit(width, es, fs, kind, meets, iface, x);
      }
    }
  }

  lemma SameHit(
      width: nat, es: seq<Entry>, fs: seq<Entry>, kind: Kind, meets: Quals -> bool, iface: string, x: nat)
    requires Accepted(width, es) && (forall e :: e in es ==> Sound(width, e)) && multiset(fs) == multiset(es)
    requires !Torn(width, es, kind, meets, iface, x)
    ensures FirstHit(width, fs, kind, meets, iface, x) == FirstHit(width, es, kind, meets, iface, x)
  {
    hide Accepted, Met, Translate, Sound, FirstHit, Torn;
    FirstHitFrom(width, es, kind, meets, iface, x);
    FirstHitFrom(width, fs, kind, meets, iface, x);
    assert forall e :: e in es <==> e in multiset(es);
    assert forall e :: e in fs <==> e in multiset(fs);
    var o, p := FirstHit(width, es, kind, meets, iface, x), FirstHit(width, fs, kind, meets, iface, x);
    if o.Some? && p.Some? {
      var a :| a in es && Met(width, a, kind, meets, iface, x) && Translate(width, a, x) == o.value;
      var b :| b in fs && Met(width, b, kind, meets, iface, x) && Translate(width, b, x) == p.value;
      assert b in es;
      AlikeUnlessTorn(width, es, a, b, kind, meets, iface, x);
    }
  }

  // ------------------------------------------------------------- the translation

  lemma HostPart(width: nat, n: Net, x: nat)
    requires Valid(width, n) && Within(width, x, n)
    ensures x % Size(width, n.len) == x - n.base
  {
    var s := Size(width, n.len);
    var i := n.base / s;
    assert n.base == i * s;
    assert x == i * s + (x - n.base);
    ModAdd(i, s, x - n.base);
  }

  lemma ModAdd(i: nat, s: nat, h: nat)
    requires h < s
    ensures (i * s + h) % s == h
  {
    var q, r := (i * s + h) / s, (i * s + h) % s;
    assert q * s + r == i * s + h;
    assert (q + 1) * s == q * s + s && (i + 1) * s == i * s + s;
    MulOrder(i, q + 1, s);
    MulOrder(q, i + 1, s);
  }

  function Swapped(e: Entry): Entry {
    e.(net1 := e.net2, net2 := e.net1)
  }

  /** A translation maps NET1 onto NET2 keeping the host part, and the swapped
      entry undoes it, from either side. */
  lemma Bijection(width: nat, e: Entry, x: nat)
    requires Sound(width, e) && Within(width, x, e.net1)
    ensures Within(width, Translate(width, e, x), e.net2)
    ensures Translate(width, e, x) - e.net2.base == x - e.net1.base
    ensures Translate(width, e, x) % Size(width, e.net2.len) == x % Size(width, e.net1.len)
    ensures Translate(width, Swapped(e), Translate(width, e, x)) == x
  {
    hide Valid, Size;
    HostPart(width, e.net1, x);
    HostPart(width, e.net2, Translate(width, e, x));
  }

  /** Every address of NET2 is the translation of exactly one address of NET1. */
  lemma Onto(width: nat, e: Entry, y: nat)
    requires Sound(width, e) && Within(width, y, e.net2)
    ensures Within(width, Translate(width, Swapped(e), y), e.net1)
    ensures Translate(width, e, Translate(width, Swapped(e), y)) == y
    ensures forall x :: Within(width, x, e.net1) && Translate(width, e, x) == y ==> x == Translate(width, Swapped(e), y)
  {
    hide Valid, Size, Translate, Within;
    Bijection(width, Swapped(e), y);
    assert Swapped(Swapped(e)) == e;
    forall x | Within(width, x, e.net1) && Translate(width, e, x) == y
      ensures x == Translate(width, Swapped(e), y)
    {
      Bijection(width, e, x);
    }
  }

  // ------------------------------------------------- what is refused, exactly

  /** How far the entry moves an address. */
  function Shift(e: Entry): int {
    e.net2.base - e.net1.base
  }

  /** Some packet is taken by both entries, and each makes another address of it. */
  ghost predicate Tears(width: nat, a: Entry, b: Entry) {
    exists iface, x: nat :: Applies(width, a, iface, x) && Applies(width, b, iface, x)
      && Translate(width, a, x) != Translate(width, b, x)
  }

  ghost predicate Excluded(width: nat, a: Entry, b: Entry, x: nat) {
    exists ex :: (ex in a.exclusions || ex in b.exclusions) && Within(width, x, ex)
  }

  /** An address of both prefixes that no exclusion of either holds. */
  ghost predicate Shared(width: nat, a: Entry, b: Entry) {
    exists x :: Common(width, a, b, x) && !Excluded(width, a, b, x)
  }

  /** Some packet is taken by both. */
  ghost predicate BothApply(width: nat, a: Entry, b: Entry) {
    exists iface, x: nat :: Applies(width, a, iface, x) && Applies(width, b, iface, x)
  }

  lemma BothApplyExact(width: nat, a: Entry, b: Entry)
    ensures BothApply(width, a, b) <==> IfaceOverlap(a.iface, b.iface) && Shared(width, a, b)
  {
    hide Within, IfaceOverlap, NameMatches;
    IfaceOverlapExact(a.iface, b.iface);
    if IfaceOverlap(a.iface, b.iface) && Shared(width, a, b) {
      var name :| NameMatches(a.iface, name) && NameMatches(b.iface, name);
      var x :| Common(width, a, b, x) && !Excluded(width, a, b, x);
      assert Applies(width, a, name, x) && Applies(width, b, name, x);
    }
    if name, x: nat :| Applies(width, a, name, x) && Applies(width, b, name, x) {
      assert Common(width, a, b, x) && !Excluded(width, a, b, x);
    }
  }

  /** Two entries translate a packet differently exactly when their interfaces
      overlap, an address is left to both, and they move it differently far. */
  lemma TearsExact(width: nat, a: Entry, b: Entry)
    requires Sound(width, a) && Sound(width, b)
    ensures Tears(width, a, b) <==>
            IfaceOverlap(a.iface, b.iface) && Shared(width, a, b) && Shift(a) != Shift(b)
  {
    hide Sound, IfaceOverlap, NameMatches, Translate, Shared;
    BothApplyExact(width, a, b);
    forall iface, x: nat | Applies(width, a, iface, x) && Applies(width, b, iface, x)
      ensures Translate(width, a, x) == Translate(width, b, x) <==> Shift(a) == Shift(b)
    {
      Bijection(width, a, x);
      Bijection(width, b, x);
    }
  }

  /** A pair that tears a packet is always refused. The refused pairs that tear
      none are those that move addresses equally far, and those whose exclusions
      jointly, though none alone, hold every common address. */
  lemma RefusedExactly(width: nat, a: Entry, b: Entry)
    requires Sound(width, a) && Sound(width, b) && SameMatch(a, b)
    ensures Tears(width, a, b) ==> Contradicts(width, a, b)
    ensures Contradicts(width, a, b) && !Tears(width, a, b) <==>
            && IfaceOverlap(a.iface, b.iface) && NetmapOverlap(width, a, b) && a.net2 != b.net2
            && (Shift(a) == Shift(b) || !Shared(width, a, b))
  {
    hide IfaceOverlap, NetmapOverlap, Within, Size, NameMatches;
    TearsExact(width, a, b);
    OverlapExact(width, a, b);
    if Tears(width, a, b) {
      var x :| Common(width, a, b, x) && !Excluded(width, a, b, x);
      if a.net2 == b.net2 {
        SamePrefix(width, a.net1, b.net1, x);
      }
    }
  }

  /** With at most one exclusion between them, no joint exclusion is possible:
      the refused pairs are those with different NET2 that both take some
      packet, and only an equal shift spares the packet. */
  lemma OneExclusionExact(width: nat, a: Entry, b: Entry)
    requires Valid(width, a.net1) && Valid(width, b.net1) && SameMatch(a, b) && |a.exclusions| + |b.exclusions| <= 1
    ensures Contradicts(width, a, b) <==> a.net2 != b.net2 && BothApply(width, a, b)
    ensures Sound(width, a) && Sound(width, b) ==>
            (Tears(width, a, b) <==> Contradicts(width, a, b) && Shift(a) != Shift(b))
  {
    hide Within, IfaceOverlap, NetmapOverlap, Size, BothApply, Tears, Valid;
    BothApplyExact(width, a, b);
    OneExclusionShared(width, a, b);
    if Sound(width, a) && Sound(width, b) {
      TearsExact(width, a, b);
      RefusedExactly(width, a, b);
    }
  }

  lemma OneExclusionShared(width: nat, a: Entry, b: Entry)
    requires Valid(width, a.net1) && Valid(width, b.net1) && |a.exclusions| + |b.exclusions| <= 1
    ensures NetmapOverlap(width, a, b) <==> Shared(width, a, b)
  {
    hide Valid, Within, NetmapOverlap, Size, Common;
    OverlapExact(width, a, b);
    var all := a.exclusions + b.exclusions;
    assert forall ex :: ex in a.exclusions || ex in b.exclusions ==> ex in all;
    if NetmapOverlap(width, a, b) {
      var x: nat;
      if all == [] {
        x :| Common(width, a, b, x);
      } else {
        assert all[0] in a.exclusions || all[0] in b.exclusions;
        x :| Common(width, a, b, x) && !Within(width, x, all[0]);
      }
      assert !Excluded(width, a, b, x);
    }
    if Shared(width, a, b) {
      var x :| Common(width, a, b, x) && !Excluded(width, a, b, x);
    }
  }

  function Sample(net2: Net, exclusions: seq<Net>, proto: string): Entry {
    Entry(SNAT, "SNAT", "eth0", Net(0, 31), net2, exclusions, Quals([], [], proto, "", ""))
  }

  /** Two exclusions may leave nothing shared, and the pair is refused all the same. */
  lemma JointExclusionsRefused()
    ensures var a, b := Sample(Net(2, 31), [Net(0, 32)], ""), Sample(Net(4, 31), [Net(1, 32)], "");
            Sound(32, a) && Sound(32, b) && Contradicts(32, a, b) && !Tears(32, a, b)
  {
    var a, b := Sample(Net(2, 31), [Net(0, 32)], ""), Sample(Net(4, 31), [Net(1, 32)], "");
    assert Size(32, 31) == 2 && Size(32, 32) == 1;
    assert Net(0, 32) in a.exclusions && Net(1, 32) in b.exclusions;
    forall x: nat
      ensures !(Within(32, x, a.net1) && !Within(32, x, Net(0, 32)) && !Within(32, x, Net(1, 32)))
    {
    }
  }

  /** A prefix inside another, mapped along with it, is refused all the same. */
  lemma EqualShiftRefused()
    ensures var a, b := Sample(Net(8, 31), [], "").(net1 := Net(0, 30), net2 := Net(8, 30)), Sample(Net(8, 31), [], "");
            Sound(32, a) && Sound(32, b) && Contradicts(32, a, b) && !Tears(32, a, b)
  {
    var a, b := Sample(Net(8, 31), [], "").(net1 := Net(0, 30), net2 := Net(8, 30)), Sample(Net(8, 31), [], "");
    assert Size(32, 31) == 2 && Size(32, 30) == 4;
    assert Overlaps(32, a.net1, b.net1);
    TearsExact(32, a, b);
  }

  // ----------------------------------------------- order, for the file as a whole

  /** Some packet meets the qualifiers of both entries. */
  ghost predicate Jointly(packets: (Quals -> bool) -> bool, a: Entry, b: Entry) {
    exists meets :: packets(meets) && meets(a.quals) && meets(b.quals)
  }

  /** The order decides the fate of no packet there can be. */
  ghost predicate AlwaysOrderFree(width: nat, es: seq<Entry>, packets: (Quals -> bool) -> bool) {
    forall kind, meets, iface, x :: packets(meets) ==> OrderFree(width, es, kind, meets, iface, x)
  }

  /** Two entries of a kind disagree across qualifiers that one packet can meet. */
  ghost predicate Disagree(width: nat, a: Entry, b: Entry, packets: (Quals -> bool) -> bool) {
    && a.kind == b.kind && a.quals != b.quals && Jointly(packets, a, b)
    && IfaceOverlap(a.iface, b.iface) && Shared(width, a, b) && Shift(a) != Shift(b)
  }

  /** Whatever packets there are, the order of an accepted file is irrelevant to
      all of them exactly when no two of its entries disagree. */
  lemma FileOrderExactly(width: nat, es: seq<Entry>, packets: (Quals -> bool) -> bool)
    requires Accepted(width, es) && forall e :: e in es ==> Sound(width, e)
    ensures AlwaysOrderFree(width, es, packets) <==>
            forall a, b :: a in es && b in es ==> !Disagree(width, a, b, packets)
  {
    hide Accepted, Sound, OrderFree, Applies, Translate, IfaceOverlap, Shared;
    if AlwaysOrderFree(width, es, packets) {
      forall a, b | a in es && b in es
        ensures !Disagree(width, a, b, packets)
      {
        if Disagree(width, a, b, packets) {
          TornSomewhere(width, es, a, b, packets);
        }
      }
    }
    if forall a, b :: a in es && b in es ==> !Disagree(width, a, b, packets) {
      forall kind, meets, iface, x | packets(meets)
        ensures OrderFree(width, es, kind, meets, iface, x)
      {
        OrderExactly(width, es, kind, meets, iface, x);
        TornDisagrees(width, es, kind, meets, iface, x, packets);
      }
    }
  }

  lemma TornDisagrees(
      width: nat, es: seq<Entry>, kind: Kind, meets: Quals -> bool, iface: string, x: nat,
      packets: (Quals -> bool) -> bool)
    requires (forall e :: e in es ==> Sound(width, e)) && packets(meets)
    ensures Torn(width, es, kind, meets, iface, x) ==>
            exists a, b :: a in es && b in es && Disagree(width, a, b, packets)
  {
    hide Sound, Applies, Translate, IfaceOverlap, Shared;
    if Torn(width, es, kind, meets, iface, x) {
      var a, b :| a in es && b in es && a.quals != b.quals
        && Met(width, a, kind, meets, iface, x) && Met(width, b, kind, meets, iface, x)
        && Translate(width, a, x) != Translate(width, b, x);
      TearsExact(width, a, b);
      assert Disagree(width, a, b, packets);
    }
  }

  lemma TornSomewhere(width: nat, es: seq<Entry>, a: Entry, b: Entry, packets: (Quals -> bool) -> bool)
    requires Accepted(width, es) && (forall e :: e in es ==> Sound(width, e)) && a in es && b in es
    requires Disagree(width, a, b, packets)
    ensures !AlwaysOrderFree(width, es, packets)
  {
    hide Accepted, Sound, OrderFree, Applies, Translate, IfaceOverlap, Shared;
    TearsExact(width, a, b);
    var meets :| packets(meets) && meets(a.quals) && meets(b.quals);
    var iface, x: nat :| Applies(width, a, iface, x) && Applies(width, b, iface, x)
      && Translate(width, a, x) != Translate(width, b, x);
    OrderExactly(width, es, a.kind, meets, iface, x);
    assert Met(width, a, a.kind, meets, iface, x) && Met(width, b, a.kind, meets, iface, x);
  }

  /** Such a file is accepted: entries whose qualifiers differ are not compared. */
  lemma QualifiersNotCompared()
    ensures var a, b := Sample(Net(2, 31), [], ""), Sample(Net(4, 31), [], "tcp");
            && Sound(32, a) && Sound(32, b) && Accepted(32, [a, b])
            && !OrderFree(32, [a, b], SNAT, q => true, "eth0", 0)
  {
    assert Size(32, 31) == 2;
    var a, b := Sample(Net(2, 31), [], ""), Sample(Net(4, 31), [], "tcp");
    assert !SameMatch(b, a);
    var meets := (q: Quals) => true;
    assert Met(32, a, SNAT, meets, "eth0", 0) && Met(32, b, SNAT, meets, "eth0", 0);
    OrderExactly(32, [a, b], SNAT, meets, "eth0", 0);
    assert a in [a, b] && b in [a, b];
    assert Torn(32, [a, b], SNAT, meets, "eth0", 0);
  }

  // ---------------------------------------------------------------- parsing

  /** A prefix as written: host bits and missing lengths are still to be checked. */
  datatype Cidr = Cidr(six: bool, addr: nat, len: nat, slash: bool)

  datatype Iface = Iface(logical: string, physical: string)

  datatype Raw = Raw(
    token: string, primary: Cidr, excluded: seq<Cidr>, iface: string, net2: Cidr,
    net3: seq<Cidr>, net3Excluded: seq<Cidr>, proto: string, dport: string, sport: string)

  function Width(six: bool): nat {
    if six then 128 else 32
  }

  function Network(six: bool, c: Cidr, allowZero: bool, requireCidr: bool): Result<Net, Error> {
    if requireCidr && !c.slash then Err(NoCidr)
    else if !Valid(Width(c.six), Net(c.addr, c.len)) then Err(BadPrefix)
    else if c.six != six then Err(WrongFamily)
    else if c.len == 0 && !allowZero then Err(ZeroPrefix)
    else Ok(Net(c.addr, c.len))
  }

  /** The networks of a list, each inside one of `inside` unless that is empty. */
  function Networks(six: bool, cs: seq<Cidr>, inside: seq<Net>, requireCidr: bool): Result<seq<Net>, Error> {
    if cs == [] then Ok([])
    else
      match Networks(six, cs[..|cs| - 1], inside, requireCidr)
      case Err(x) => Err(x)
      case Ok(ns) =>
        match Network(six, cs[|cs| - 1], true, requireCidr)
        case Err(x) => Err(x)
        case Ok(n) =>
          if inside != [] && forall o :: o in inside ==> !SubnetOf(Width(six), n, o) then Err(Outside) else Ok(ns + [n])
  }

  const TYPES := ["SNAT", "DNAT", "SNAT:P", "SNAT:T", "DNAT:P", "DNAT:T"]

  function KindOf(token: string): Kind {
    if "SNAT" <= token then SNAT else DNAT
  }

  function Declared(ifaces: seq<Iface>, spec: string): Option<string> {
    if ifaces == [] then None
    else if spec == ifaces[0].logical || spec == ifaces[0].physical then Some(ifaces[0].physical)
    else Declared(ifaces[1..], spec)
  }

  predicate LooselyDeclared(ifaces: seq<Iface>, spec: string) {
    !Wild(spec)
    && exists i :: i in ifaces && Wild(i.physical) && i.physical[..|i.physical| - 1] <= spec
  }

  function Resolve(ifaces: seq<Iface>, spec: string): Result<string, Error> {
    if Declared(ifaces, spec).Some? then Ok(Declared(ifaces, spec).value)
    else if LooselyDeclared(ifaces, spec) then Ok(spec)
    else Err(BadInterface)
  }

  function ParseEntry(six: bool, ifaces: seq<Iface>, r: Raw): Result<Entry, Error> {
    if r.token !in TYPES then Err(BadType)
    else
      match Network(six, r.primary, false, true)
      case Err(x) => Err(x)
      case Ok(net1) =>
        match Networks(six, r.excluded, [net1], true)
        case Err(x) => Err(x)
        case Ok(exclusions) =>
          match Resolve(ifaces, r.iface)
          case Err(x) => Err(x)
          case Ok(iface) =>
            match Network(six, r.net2, false, true)
            case Err(x) => Err(x)
            case Ok(net2) =>
              if net1.len != net2.len then Err(UnequalLengths)
              else
                match Networks(six, r.net3, [], false)
                case Err(x) => Err(x)
                case Ok(net3) =>
                  match Networks(six, r.net3Excluded, net3, false)
                  case Err(x) => Err(x)
                  case Ok(net3Exclusions) =>
                    Ok(Entry(KindOf(r.token), r.token, iface, net1, net2, exclusions,
                             Quals(net3, net3Exclusions, r.proto, r.dport, r.sport)))
  }

  function ParseEntries(six: bool, ifaces: seq<Iface>, rs: seq<Raw>): Result<seq<Entry>, Error> {
    if rs == [] then Ok([])
    else
      match ParseEntries(six, ifaces, rs[..|rs| - 1])
      case Err(x) => Err(x)
      case Ok(es) =>
        match ParseEntry(six, ifaces, rs[|rs| - 1])
        case Err(x) => Err(x)
        case Ok(e) => Ok(es + [e])
  }

  predicate CrossHook(e: Entry) {
    e.token == "SNAT:P" || e.token == "DNAT:T"
  }

  lemma ParsedSound(six: bool, ifaces: seq<Iface>, r: Raw)
    ensures ParseEntry(six, ifaces, r).Ok? ==>
              var e := ParseEntry(six, ifaces, r).value;
              Sound(Width(six), e) && e.net1.len > 0
  {
    hide Networks, Resolve, Valid;
  }

  lemma {:induction false} AllParsedSound(six: bool, ifaces: seq<Iface>, rs: seq<Raw>)
    ensures ParseEntries(six, ifaces, rs).Ok? ==>
              |ParseEntries(six, ifaces, rs).value| == |rs|
              && forall e :: e in ParseEntries(six, ifaces, rs).value ==> Sound(Width(six), e)
  {
    hide ParseEntry, Sound;
    if rs != [] {
      AllParsedSound(six, ifaces, rs[..|rs| - 1]);
      ParsedSound(six, ifaces, rs[|rs| - 1]);
    }
  }

  lemma {:induction false} EarlyError(six: bool, ifaces: seq<Iface>, rs: seq<Raw>, n: nat)
    requires n <= |rs| && ParseEntries(six, ifaces, rs[..n]).Err?
    ensures ParseEntries(six, ifaces, rs) == ParseEntries(six, ifaces, rs[..n])
    decreases |rs|
  {
    hide ParseEntry;
    if n < |rs| {
      assert rs[..|rs| - 1][..n] == rs[..n];
      EarlyError(six, ifaces, rs[..|rs| - 1], n);
    } else {
      assert rs[..n] == rs;
    }
  }

  /** The whole file: every line, then the conflicts, then the unsupported types. */
  method ParseNetmap(six: bool, ifaces: seq<Iface>, rs: seq<Raw>) returns (r: Result<seq<Entry>, Error>)
    ensures ParseEntries(six, ifaces, rs).Err? ==> r == Err(ParseEntries(six, ifaces, rs).error)
    ensures ParseEntries(six, ifaces, rs).Ok? ==>
              var es := ParseEntries(six, ifaces, rs).value;
              && (r.Ok? ==> r.value == es)
              && (r.Ok? <==> Accepted(Width(six), es) && forall e :: e in es ==> !CrossHook(e))
              && (r.Err? && Accepted(Width(six), es) ==>
                    && r.error.Unsupported? && r.error.entry < |es| && CrossHook(es[r.error.entry])
                    && forall j :: 0 <= j < r.error.entry ==> !CrossHook(es[j]))
              && (!Accepted(Width(six), es) ==>
                    && (r.error.Duplicate? || r.error.Conflict?) && r.error.prior < r.error.entry < |es|
                    && OkBefore(Width(six), es, r.error.entry, r.error.prior)
                    && !PairOk(Width(six), es[r.error.entry], es[r.error.prior]))
    ensures r.Ok? ==> forall e :: e in r.value ==> Sound(Width(six), e)
  {
    hide ParseEntry, Sound, PairOk, CrossHook;
    var out: seq<Entry> := [];
    for i := 0 to |rs|
      invariant ParseEntries(six, ifaces, rs[..i]) == Ok(out)
    {
      assert rs[..i + 1][..i] == rs[..i];
      var e := ParseEntry(six, ifaces, rs[i]);
      if e.Err? {
        EarlyError(six, ifaces, rs, i + 1);
        return Err(e.error);
      }
      out := out + [e.value];
    }
    assert rs[..|rs|] == rs;
    AllParsedSound(six, ifaces, rs);
    var bad := ValidateConflicts(Width(six), out);
    if bad.Some? {
      return Err(bad.value);
    }
    for i := 0 to |out|
      invariant forall j :: 0 <= j < i ==> !CrossHook(out[j])
    {
      if CrossHook(out[i]) {
        assert out[i] in out;
        return Err(Unsupported(i));
      }
    }
    return Ok(out);
  }
}
