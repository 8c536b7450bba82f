/** Address columns and how a mixed one fans out into several nft matches. */
module Columns {
  /** One item of an address column: a literal address, a MAC, a named set or a country code. */
  datatype Item = Address(text: string) | Mac(text: string) | SetRef(text: string) | Geo(text: string)

  /** A column: its items and a leading '!'. */
  datatype Column = Column(negated: bool, items: seq<Item>)

  datatype Side = Source | Dest

  /** One nft match: is the address in this group, or in none of it? */
  datatype Clause = Clause(negated: bool, group: seq<Item>)

  /** The columns the emitter accepts on this side. */
  predicate Accepted(c: Column, side: Side) {
    c.items != [] && (side == Dest ==> forall i :: 0 <= i < |c.items| ==> !c.items[i].Mac?)
  }

  datatype Kind = KAddress | KMac | KSet | KGeo

  function KindOf(i: Item): Kind {
    match i
    case Address(_) => KAddress
    case Mac(_) => KMac
    case SetRef(_) => KSet
    case Geo(_) => KGeo
  }

  function OfKind(items: seq<Item>, k: Kind): seq<Item> {
    if items == [] then []
    else OfKind(items[..|items| - 1], k)
         + if KindOf(items[|items| - 1]) == k then [items[|items| - 1]] else []
  }

  function Joint(items: seq<Item>): seq<seq<Item>> {
    if items == [] then [] else [items]
  }

  function Singles(items: seq<Item>): (r: seq<seq<Item>>)
    ensures |r| == |items| && forall i :: 0 <= i < |r| ==> r[i] == [items[i]]
  {
    seq(|items|, i requires 0 <= i < |items| => [items[i]])
  }

  /** Addresses share one anonymous set and MACs another; every named set and
      country code needs a match of its own. */
  function Groups(items: seq<Item>): seq<seq<Item>> {
    Joint(OfKind(items, KAddress)) + Joint(OfKind(items, KMac))
    + Singles(OfKind(items, KSet)) + Singles(OfKind(items, KGeo))
  }

  function Positives(gs: seq<seq<Item>>): (r: seq<seq<Clause>>)
    ensures |r| == |gs| && forall i :: 0 <= i < |r| ==> r[i] == [Clause(false, gs[i])]
  {
    seq(|gs|, i requires 0 <= i < |gs| => [Clause(false, gs[i])])
  }

  function Exclusions(gs: seq<seq<Item>>): (r: seq<Clause>)
    ensures |r| == |gs| && forall i :: 0 <= i < |r| ==> r[i] == Clause(true, gs[i])
  {
    seq(|gs|, i requires 0 <= i < |gs| => Clause(true, gs[i]))
  }

  /** The alternatives of a column, each a conjunction of clauses. */
  function Alternatives(c: Column): seq<seq<Clause>> {
    var gs := Groups(c.items);
    if |gs| <= 1 then [[Clause(c.negated, c.items)]]
    else if c.negated then [Exclusions(gs)]
    else Positives(gs)
  }

  /** `holds` are the items the packet's address satisfies. */
  predicate Listed(items: seq<Item>, holds: set<Item>) {
    exists i :: 0 <= i < |items| && items[i] in holds
  }

  predicate ClauseSat(c: Clause, holds: set<Item>) {
    c.negated != Listed(c.group, holds)
  }

  predicate AllSat(cs: seq<Clause>, holds: set<Item>) {
    forall i :: 0 <= i < |cs| ==> ClauseSat(cs[i], holds)
  }

  /** What a column means: some listed item holds, or none when negated. */
  predicate ColumnSat(c: Column, holds: set<Item>) {
    c.negated != Listed(c.items, holds)
  }

  lemma {:induction false} OfKindIn(items: seq<Item>, k: Kind)
    ensures forall x :: x in OfKind(items, k) <==> x in items && KindOf(x) == k
  {
    if items != [] {
      OfKindIn(items[..|items| - 1], k);
      assert items == items[..|items| - 1] + [items[|items| - 1]];
    }
  }

  /** The groups hold every item of the column and nothing else. */
  lemma GroupsPartition(items: seq<Item>)
    ensures forall x :: x in items <==> exists g :: g in Groups(items) && x in g
  {
    forall k ensures forall x :: x in OfKind(items, k) <==> x in items && KindOf(x) == k {
      OfKindIn(items, k);
    }
    forall x | x in items
      ensures exists g :: g in Groups(items) && x in g
    {
      var own := OfKind(items, KindOf(x));
      assert x in own;
      if KindOf(x) == KAddress || KindOf(x) == KMac {
        assert own in Joint(own) && own in Groups(items);
      } else {
        var i :| 0 <= i < |own| && own[i] == x;
        assert Singles(own)[i] == [x];
        assert [x] in Singles(own) && [x] in Groups(items);
      }
    }
    forall g, x | g in Groups(items) && x in g
      ensures x in items
    {
      GroupKind(items, g);
    }
  }

  lemma GroupKind(items: seq<Item>, g: seq<Item>)
    requires g in Groups(items)
    ensures forall x :: x in g ==> x in items
  {
    OfKindIn(items, KAddress);
    OfKindIn(items, KMac);
    OfKindIn(items, KSet);
    OfKindIn(items, KGeo);
    var sets, geos := OfKind(items, KSet), OfKind(items, KGeo);
    if g in Singles(sets) {
      var i :| 0 <= i < |sets| && Singles(sets)[i] == g;
      assert sets[i] in sets;
    } else if g in Singles(geos) {
      var i :| 0 <= i < |geos| && Singles(geos)[i] == g;
      assert geos[i] in geos;
    }
  }

  /** Some alternative matches exactly when the column does. */
  lemma FanOutExact(c: Column, holds: set<Item>)
    ensures (exists a :: a in Alternatives(c) && AllSat(a, holds)) <==> ColumnSat(c, holds)
  {
    var gs := Groups(c.items);
    GroupsPartition(c.items);
    var alts := Alternatives(c);
    if |gs| <= 1 {
      assert alts == [[Clause(c.negated, c.items)]];
      assert alts[0] in alts;
      assert AllSat(alts[0], holds) <==> ClauseSat(alts[0][0], holds);
    } else if c.negated {
      assert alts[0] in alts;
      ExclusionsExact(c.items, holds);
    } else {
      if Listed(c.items, holds) {
        var i :| 0 <= i < |c.items| && c.items[i] in holds;
        assert c.items[i] in c.items;
        var g :| g in gs && c.items[i] in g;
        var k :| 0 <= k < |gs| && gs[k] == g;
        assert Positives(gs)[k] in alts && AllSat(Positives(gs)[k], holds);
      }
      if a :| a in alts && AllSat(a, holds) {
        var k :| 0 <= k < |alts| && alts[k] == a;
        assert ClauseSat(a[0], holds);
        var j :| 0 <= j < |gs[k]| && gs[k][j] in holds;
        assert gs[k] in gs && gs[k][j] in gs[k];
        assert gs[k][j] in c.items;
      }
    }
  }

  lemma ExclusionsExact(items: seq<Item>, holds: set<Item>)
    ensures AllSat(Exclusions(Groups(items)), holds) <==> !Listed(items, holds)
  {
    var gs := Groups(items);
    var es := Exclusions(gs);
    GroupsPartition(items);
    if Listed(items, holds) {
      var i :| 0 <= i < |items| && items[i] in holds;
      assert items[i] in items;
      var g :| g in gs && items[i] in g;
      var k :| 0 <= k < |gs| && gs[k] == g;
      assert !ClauseSat(es[k], holds);
    }
    if !Listed(items, holds) {
      forall k | 0 <= k < |es| ensures ClauseSat(es[k], holds) {
        assert gs[k] in gs;
        forall j | 0 <= j < |gs[k]| ensures gs[k][j] !in holds {
          assert gs[k][j] in gs[k];
          assert gs[k][j] in items;
        }
      }
    }
  }
}
