/** Byte-bounded batches: the chunker, set element batches, and the geoip batcher. */
module Chunk {
  const CHUNK_BYTES: nat := 60000

  // ------------------------------------------------------------------- text

  function Join(sep: string, parts: seq<string>): string {
    if |parts| == 0 then ""
    else if |parts| == 1 then parts[0]
    else Join(sep, parts[..|parts| - 1]) + sep + parts[|parts| - 1]
  }

  /** The sum of the lengths, each with its separator. */
  function Total(parts: seq<string>, sep: nat): nat {
    if parts == [] then 0 else Total(parts[..|parts| - 1], sep) + |parts[|parts| - 1]| + sep
  }

  lemma {:induction false} JoinLength(sep: string, parts: seq<string>)
    requires parts != []
    ensures |Join(sep, parts)| + |sep| == Total(parts, |sep|)
  {
    if |parts| > 1 {
      JoinLength(sep, parts[..|parts| - 1]);
    } else {
      assert parts[..0] == [];
      assert Total(parts[..0], |sep|) == 0;
    }
  }

  function Concat<T>(batches: seq<seq<T>>): seq<T> {
    if batches == [] then [] else Concat(batches[..|batches| - 1]) + batches[|batches| - 1]
  }

  lemma ConcatSnoc<T>(batches: seq<seq<T>>, last: seq<T>)
    ensures Concat(batches + [last]) == Concat(batches) + last
  {
    assert (batches + [last])[..|batches|] == batches;
  }

  // ---------------------------------------------------------------- the chunker

  /** Batches already closed, and the one being filled. */
  datatype Packed = Packed(full: seq<seq<string>>, open: seq<string>)

  function Unpacked(p: Packed): seq<string> {
    Concat(p.full) + p.open
  }

  /** A batch in its budget, unless a single piece is too big for it. */
  predicate InBudget(batch: seq<string>, sep: nat, budget: nat) {
    batch != [] && (Total(batch, sep) <= budget || |batch| == 1)
  }

  predicate AllInBudget(p: Packed, sep: nat, budget: nat) {
    && (forall b :: b in p.full ==> InBudget(b, sep, budget))
    && (p.open != [] ==> InBudget(p.open, sep, budget))
  }

  lemma FlushedBounds(p: Packed, sep: nat, budget: nat)
    ensures Unpacked(Flushed(p)) == Unpacked(p)
    ensures AllInBudget(p, sep, budget) ==> AllInBudget(Flushed(p), sep, budget)
  {
    hide InBudget, Concat;
    ConcatSnoc(p.full, p.open);
  }

  lemma TotalSnoc(batch: seq<string>, s: string, sep: nat)
    ensures Total(batch + [s], sep) == Total(batch, sep) + |s| + sep
  {
    assert (batch + [s])[..|batch|] == batch;
  }

  lemma TotalOne(batch: seq<string>, sep: nat)
    requires |batch| == 1
    ensures Total(batch, sep) == |batch[0]| + sep
  {
    TotalSnoc([], batch[0], sep);
    assert [] + [batch[0]] == batch;
  }

  function ChunkText(stmts: seq<string>): string {
    Join("\n", stmts) + "\n"
  }

  function ChunkTexts(chunks: seq<seq<string>>): seq<string> {
    if chunks == [] then [] else ChunkTexts(chunks[..|chunks| - 1]) + [ChunkText(chunks[|chunks| - 1])]
  }

  function Flushed(p: Packed): Packed {
    if p.open == [] then p else Packed(p.full + [p.open], [])
  }

  function Placed(p: Packed, stmt: string): Packed {
    var q := if Total(p.open, 1) + |stmt| + 1 > CHUNK_BYTES then Flushed(p) else p;
    Packed(q.full, q.open + [stmt])
  }

  function Pack(stmts: seq<string>): Packed {
    if stmts == [] then Packed([], []) else Placed(Pack(stmts[..|stmts| - 1]), stmts[|stmts| - 1])
  }

  /** The statements, split into chunks. */
  function Chunks(stmts: seq<string>): seq<seq<string>> {
    Flushed(Pack(stmts)).full
  }

  class Chunker {
    var chunks: seq<string>
    var current: seq<string>
    var size: nat
    ghost var full: seq<seq<string>>

    /** The texts are those of the closed chunks, and the size is what the open
        one will take. */
    ghost predicate Valid()
      reads this
    {
      chunks == ChunkTexts(full) && size == Total(current, 1)
    }

    ghost function State(): Packed
      reads this
    {
      Packed(full, current)
    }

    constructor ()
      ensures Valid() && State() == Packed([], [])
    {
      chunks, current, size, full := [], [], 0, [];
    }

    method Add(stmt: string)
      requires Valid()
      modifies this
      ensures Valid() && State() == Placed(old(State()), stmt)
    {
      if size + |stmt| + 1 > CHUNK_BYTES {
        Flush();
      }
      assert (current + [stmt])[..|current|] == current;
      current := current + [stmt];
      size := size + |stmt| + 1;
    }

    method Flush()
      requires Valid()
      modifies this
      ensures Valid() && State() == Flushed(old(State()))
    {
      if current != [] {
        assert (full + [current])[..|full|] == full;
        chunks := chunks + [ChunkText(current)];
        full := full + [current];
        current, size := [], 0;
      }
    }
  }

  /** The tracked size is the chunk's length. */
  lemma ChunkTextLength(stmts: seq<string>)
    requires stmts != []
    ensures |ChunkText(stmts)| == Total(stmts, 1)
  {
    JoinLength("\n", stmts);
  }

  lemma PlacedBounds(p: Packed, stmt: string)
    requires AllInBudget(p, 1, CHUNK_BYTES)
    ensures AllInBudget(Placed(p, stmt), 1, CHUNK_BYTES) && Unpacked(Placed(p, stmt)) == Unpacked(p) + [stmt]
  {
    hide Total, Concat;
    FlushedBounds(p, 1, CHUNK_BYTES);
    var q := if Total(p.open, 1) + |stmt| + 1 > CHUNK_BYTES then Flushed(p) else p;
    TotalSnoc(q.open, stmt, 1);
    assert Unpacked(Placed(p, stmt)) == Concat(q.full) + (q.open + [stmt]);
  }

  lemma {:induction false} PackBounds(stmts: seq<string>)
    ensures Unpacked(Pack(stmts)) == stmts && AllInBudget(Pack(stmts), 1, CHUNK_BYTES)
  {
    hide Placed, AllInBudget, Unpacked;
    var n := |stmts| - 1;
    if stmts == [] {
      EmptyBounds(1, CHUNK_BYTES);
    } else {
      PackBounds(stmts[..n]);
      PlacedBounds(Pack(stmts[..n]), stmts[n]);
      assert stmts == stmts[..n] + [stmts[n]];
    }
  }

  lemma EmptyBounds(sep: nat, budget: nat)
    ensures Unpacked(Packed([], [])) == [] && AllInBudget(Packed([], []), sep, budget)
  {
  }

  /** Chunks concatenate to the statements in order, none is empty, and one is
      over the budget exactly when it holds a single statement that is. */
  lemma ChunksBounded(stmts: seq<string>)
    ensures Concat(Chunks(stmts)) == stmts
    ensures forall c :: c in Chunks(stmts) ==>
              c != [] && |ChunkText(c)| == Total(c, 1)
              && (|ChunkText(c)| > CHUNK_BYTES <==> |c| == 1 && |c[0]| + 1 > CHUNK_BYTES)
  {
    hide ChunkText, Pack, Total, Concat;
    PackBounds(stmts);
    FlushedBounds(Pack(stmts), 1, CHUNK_BYTES);
    forall c | c in Chunks(stmts)
      ensures c != [] && |ChunkText(c)| == Total(c, 1)
      ensures |ChunkText(c)| > CHUNK_BYTES <==> |c| == 1 && |c[0]| + 1 > CHUNK_BYTES
    {
      assert InBudget(c, 1, CHUNK_BYTES);
      ChunkTextLength(c);
      if |c| == 1 {
        TotalOne(c, 1);
      }
    }
  }

  /** So every chunk is within the budget when every statement fits one. */
  lemma ChunksWithin(stmts: seq<string>)
    requires forall s :: s in stmts ==> |s| + 1 <= CHUNK_BYTES
    ensures forall c :: c in ChunkTexts(Chunks(stmts)) ==> |c| <= CHUNK_BYTES
  {
    hide ChunkText, Chunks;
    ChunksBounded(stmts);
    TextsIn(Chunks(stmts));
    forall c | c in Chunks(stmts)
      ensures |ChunkText(c)| <= CHUNK_BYTES
    {
      InConcat(Chunks(stmts), c);
      assert c[0] in c;
    }
  }

  lemma {:induction false} TextsIn(chunks: seq<seq<string>>)
    ensures forall t :: t in ChunkTexts(chunks) <==> exists c :: c in chunks && t == ChunkText(c)
  {
    hide ChunkText;
    if chunks != [] {
      TextsIn(chunks[..|chunks| - 1]);
      assert chunks[|chunks| - 1] in chunks;
    }
  }

  lemma {:induction false} InConcat(chunks: seq<seq<string>>, c: seq<string>)
    requires c in chunks
    ensures forall s :: s in c ==> s in Concat(chunks)
  {
    if c in chunks[..|chunks| - 1] {
      InConcat(chunks[..|chunks| - 1], c);
    }
  }

  // ------------------------------------------------------------ bytes on the wire

  /** The bytes of one character in UTF-8. */
  function CharBytes(c: char): nat {
    if c as int < 0x80 then 1 else if c as int < 0x800 then 2 else if c as int < 0x10000 then 3 else 4
  }

  function ByteCount(s: string): nat {
    if s == "" then 0 else ByteCount(s[..|s| - 1]) + CharBytes(s[|s| - 1])
  }

  predicate Ascii(s: string) {
    forall c :: c in s ==> c as int < 0x80
  }

  lemma AsciiSnoc(s: string, c: char)
    ensures Ascii(s + [c]) <==> Ascii(s) && c as int < 0x80
  {
    if Ascii(s + [c]) {
      assert c in s + [c];
      assert forall d :: d in s ==> d in s + [c];
    }
  }

  /** The size counts characters, which are bytes exactly in ASCII text; any
      other chunk is longer on the wire than the size says. */
  lemma {:induction false} SizeIsBytesExactly(s: string)
    ensures ByteCount(s) >= |s|
    ensures ByteCount(s) == |s| <==> Ascii(s)
  {
    if s != "" {
      var pre, last := s[..|s| - 1], s[|s| - 1];
      SizeIsBytesExactly(pre);
      assert s == pre + [last];
      AsciiSnoc(pre, last);
    }
  }

  // --------------------------------------------------------- set element batches

  const HALF: nat := CHUNK_BYTES / 2

  /** `add element` for one batch. */
  function ElementText(table: string, name: string, batch: seq<string>): string {
    "add element " + table + " " + name + " { " + Join(", ", batch) + " }"
  }

  /** The length of that statement without its elements. */
  function Header(table: string, name: string): nat {
    |table| + |name| + 18
  }

  /** Batches closed once they reach half the budget. */
  function Gather(elements: seq<string>): Packed {
    if elements == [] then Packed([], []) else Gathered(Gather(elements[..|elements| - 1]), elements[|elements| - 1])
  }

  function ElementBatches(elements: seq<string>): seq<seq<string>> {
    Flushed(Gather(elements)).full
  }

  predicate UnderHalf(p: Packed) {
    Total(p.open, 2) < HALF && forall b :: b in p.full ==> b != [] && Total(b[..|b| - 1], 2) < HALF
  }

  function Gathered(p: Packed, e: string): Packed {
    var batch := p.open + [e];
    if Total(batch, 2) >= HALF then Packed(p.full + [batch], []) else Packed(p.full, batch)
  }

  lemma GatheredBounds(p: Packed, e: string)
    requires UnderHalf(p)
    ensures UnderHalf(Gathered(p, e)) && Unpacked(Gathered(p, e)) == Unpacked(p) + [e]
  {
    hide Concat;
    var batch := p.open + [e];
    assert batch[..|batch| - 1] == p.open;
    ConcatSnoc(p.full, batch);
    assert Concat(p.full) + batch == Concat(p.full) + p.open + [e];
  }

  lemma {:induction false} GatherBounds(elements: seq<string>)
    ensures Unpacked(Gather(elements)) == elements && UnderHalf(Gather(elements))
  {
    hide Gathered, UnderHalf, Unpacked;
    var n := |elements| - 1;
    if elements == [] {
      EmptyBounds(2, HALF);
      NothingGathered();
    } else {
      GatherBounds(elements[..n]);
      GatheredBounds(Gather(elements[..n]), elements[n]);
      assert elements == elements[..n] + [elements[n]];
    }
  }

  lemma NothingGathered()
    ensures UnderHalf(Packed([], []))
  {
  }

  lemma ElementLength(table: string, name: string, batch: seq<string>)
    requires batch != []
    ensures |ElementText(table, name, batch)| == Header(table, name) + Total(batch, 2) - 2
  {
    hide Join, Total;
    JoinLength(", ", batch);
    assert |"add element "| == 12 && |" { "| == 3 && |" }"| == 2;
  }

  /** Batches hold the elements in order, and a statement stays under half the
      budget plus its header and one element. */
  lemma ElementsBounded(table: string, name: string, elements: seq<string>)
    ensures Concat(ElementBatches(elements)) == elements
    ensures forall b :: b in ElementBatches(elements) ==>
              b != [] && |ElementText(table, name, b)| < HALF + Header(table, name) + |b[|b| - 1]|
  {
    hide ElementText, Gather, Concat, Total;
    GatherBounds(elements);
    var p := Gather(elements);
    FlushedBounds(p, 2, HALF);
    forall b | b in ElementBatches(elements)
      ensures b != [] && |ElementText(table, name, b)| < HALF + Header(table, name) + |b[|b| - 1]|
    {
      assert b in p.full || b == p.open;
      ElementLength(table, name, b);
      var n := |b| - 1;
      assert b == b[..n] + [b[n]];
      TotalSnoc(b[..n], b[n], 2);
    }
  }

  function ElementTexts(table: string, name: string, batches: seq<seq<string>>): seq<string> {
    if batches == [] then []
    else ElementTexts(table, name, batches[..|batches| - 1]) + [ElementText(table, name, batches[|batches| - 1])]
  }

  /** Adding these statements one after another. */
  function PlacedAll(p: Packed, stmts: seq<string>): Packed {
    if stmts == [] then p else Placed(PlacedAll(p, stmts[..|stmts| - 1]), stmts[|stmts| - 1])
  }

  lemma {:induction false} PackPlus(a: seq<string>, b: seq<string>)
    ensures Pack(a + b) == PlacedAll(Pack(a), b)
  {
    hide Placed;
    if b == [] {
      assert a + b == a;
    } else {
      assert (a + b)[..|a + b| - 1] == a + b[..|b| - 1];
      PackPlus(a, b[..|b| - 1]);
    }
  }

  /** Batch the elements into statements for the chunker; `elements` are already
      collapsed when the set is an interval set. */
  method ElementStatements(table: string, name: string, elements: seq<string>, out: Chunker)
    requires out.Valid()
    modifies out
    ensures out.Valid()
    ensures out.State() == PlacedAll(old(out.State()), ElementTexts(table, name, ElementBatches(elements)))
  {
    hide Placed, ElementText;
    var batch: seq<string>, batchLen := [], 0;
    for i := 0 to |elements|
      invariant out.Valid() && batch == Gather(elements[..i]).open && batchLen == Total(batch, 2)
      invariant out.State() == PlacedAll(old(out.State()), ElementTexts(table, name, Gather(elements[..i]).full))
    {
      assert elements[..i + 1][..i] == elements[..i];
      ghost var done := Gather(elements[..i]).full;
      assert (batch + [elements[i]])[..|batch|] == batch;
      batch := batch + [elements[i]];
      batchLen := batchLen + |elements[i]| + 2;
      if batchLen >= HALF {
        out.Add(ElementText(table, name, batch));
        PlaceNext(old(out.State()), table, name, done, batch);
        batch, batchLen := [], 0;
      }
    }
    assert elements[..|elements|] == elements;
    if batch != [] {
      out.Add(ElementText(table, name, batch));
      PlaceNext(old(out.State()), table, name, Gather(elements).full, batch);
    }
  }

  lemma PlaceNext(p: Packed, table: string, name: string, done: seq<seq<string>>, batch: seq<string>)
    ensures PlacedAll(p, ElementTexts(table, name, done + [batch])) ==
            Placed(PlacedAll(p, ElementTexts(table, name, done)), ElementText(table, name, batch))
  {
    hide Placed, ElementText;
    assert (done + [batch])[..|done|] == done;
    var texts := ElementTexts(table, name, done);
    assert (texts + [ElementText(table, name, batch)])[..|texts|] == texts;
  }

  // ---------------------------------------------------------------- geoip batches

  function Taken(p: Packed, c: string): Packed {
    if p.open != [] && Total(p.open, 2) + |c| + 2 > HALF then Packed(p.full + [p.open], [c])
    else Packed(p.full, p.open + [c])
  }

  /** Batches closed before they would pass half the budget. */
  function Country(cidrs: seq<string>): Packed {
    if cidrs == [] then Packed([], []) else Taken(Country(cidrs[..|cidrs| - 1]), cidrs[|cidrs| - 1])
  }

  function CountryBatches(cidrs: seq<string>): seq<seq<string>> {
    Flushed(Country(cidrs)).full
  }

  method AddBatches(table: string, setname: string, cidrs: seq<string>) returns (out: seq<string>)
    ensures out == ElementTexts(table, setname, CountryBatches(cidrs))
  {
    hide ElementText;
    out := [];
    var batch: seq<string>, size := [], 0;
    ghost var done: seq<seq<string>> := [];
    for i := 0 to |cidrs|
      invariant Country(cidrs[..i]) == Packed(done, batch) && size == Total(batch, 2)
      invariant out == ElementTexts(table, setname, done)
    {
      assert cidrs[..i + 1][..i] == cidrs[..i];
      var c := cidrs[i];
      if batch != [] && size + |c| + 2 > HALF {
        assert (done + [batch])[..|done|] == done;
        out := out + [ElementText(table, setname, batch)];
        done := done + [batch];
        batch, size := [], 0;
      }
      assert (batch + [c])[..|batch|] == batch;
      batch := batch + [c];
      size := size + |c| + 2;
    }
    assert cidrs[..|cidrs|] == cidrs;
    if batch != [] {
      assert (done + [batch])[..|done|] == done;
      out := out + [ElementText(table, setname, batch)];
    }
  }

  lemma TakenBounds(p: Packed, c: string)
    requires AllInBudget(p, 2, HALF)
    ensures AllInBudget(Taken(p, c), 2, HALF) && Unpacked(Taken(p, c)) == Unpacked(p) + [c]
  {
    hide Total, Concat;
    FlushedBounds(p, 2, HALF);
    TotalSnoc(p.open, c, 2);
    assert Unpacked(Taken(p, c)) == Concat(Taken(p, c).full) + Taken(p, c).open;
    assert [] + [c] == [c] && Concat(p.full) + (p.open + [c]) == Concat(p.full) + p.open + [c];
  }

  lemma {:induction false} CountryBounds(cidrs: seq<string>)
    ensures Unpacked(Country(cidrs)) == cidrs && AllInBudget(Country(cidrs), 2, HALF)
  {
    hide Taken, AllInBudget, Unpacked;
    var n := |cidrs| - 1;
    if cidrs == [] {
      EmptyBounds(2, HALF);
    } else {
      CountryBounds(cidrs[..n]);
      TakenBounds(Country(cidrs[..n]), cidrs[n]);
      assert cidrs == cidrs[..n] + [cidrs[n]];
    }
  }

  /** The batcher keeps the order, and a statement's elements pass half the
      budget exactly when it carries a single oversized one. */
  lemma CountryBounded(table: string, name: string, cidrs: seq<string>)
    ensures Concat(CountryBatches(cidrs)) == cidrs
    ensures forall b :: b in CountryBatches(cidrs) ==>
              b != [] && |ElementText(table, name, b)| == Header(table, name) + Total(b, 2) - 2
              && (Total(b, 2) > HALF <==> |b| == 1 && |b[0]| + 2 > HALF)
  {
    hide ElementText, Country, Total, Concat;
    CountryBounds(cidrs);
    FlushedBounds(Country(cidrs), 2, HALF);
    forall b | b in CountryBatches(cidrs)
      ensures b != [] && |ElementText(table, name, b)| == Header(table, name) + Total(b, 2) - 2
      ensures Total(b, 2) > HALF <==> |b| == 1 && |b[0]| + 2 > HALF
    {
      assert InBudget(b, 2, HALF);
      ElementLength(table, name, b);
      if |b| == 1 {
        TotalOne(b, 2);
      }
    }
  }

  // ------------------------------------------------------------ no early closing

  /** Batches are closed no sooner than needed: the first piece of each did not
      fit the one before it. */
  predicate Greedy(batches: seq<seq<string>>, sep: nat, budget: nat) {
    forall i :: 0 < i < |batches| ==> Needed(batches, i, sep, budget)
  }

  /** Batch i was needed: its first piece would not have fitted the batch before. */
  predicate Needed(batches: seq<seq<string>>, i: nat, sep: nat, budget: nat) {
    && 0 < i < |batches| && batches[i - 1] != [] && batches[i] != []
    && Total(batches[i - 1], sep) + |batches[i][0]| + sep > budget
  }

  /** The batches so far, the open one last. */
  function Batches(p: Packed): seq<seq<string>> {
    if p.open == [] then p.full else p.full + [p.open]
  }

  function Put(p: Packed, s: string, sep: nat, budget: nat): Packed {
    if p.open != [] && Total(p.open, sep) + |s| + sep > budget then Packed(p.full + [p.open], [s])
    else Packed(p.full, p.open + [s])
  }

  /** Only the first piece finds nothing open. */
  predicate Started(p: Packed) {
    (p.open == [] ==> p.full == []) && forall b :: b in p.full ==> b != []
  }

  lemma PutGreedy(p: Packed, s: string, sep: nat, budget: nat)
    requires Greedy(Batches(p), sep, budget) && Started(p)
    ensures Greedy(Batches(Put(p, s, sep, budget)), sep, budget) && Started(Put(p, s, sep, budget))
  {
    hide Total;
    var bs, q := Batches(p), Put(p, s, sep, budget);
    var cs := Batches(q);
    forall i | 0 < i < |cs|
      ensures Needed(cs, i, sep, budget)
    {
      if i < |bs| {
        assert Needed(bs, i, sep, budget);
        assert cs[i - 1] == bs[i - 1] && cs[i] != [] && cs[i][0] == bs[i][0];
      } else {
        assert q == Packed(p.full + [p.open], [s]);
      }
    }
  }

  lemma {:induction false} PackGreedy(stmts: seq<string>)
    ensures Greedy(Batches(Pack(stmts)), 1, CHUNK_BYTES) && Started(Pack(stmts))
  {
    hide Total, Greedy, Put;
    if stmts == [] {
      NoneGreedy(1, CHUNK_BYTES);
    } else {
      var n := |stmts| - 1;
      PackGreedy(stmts[..n]);
      PutGreedy(Pack(stmts[..n]), stmts[n], 1, CHUNK_BYTES);
      PlacedIsPut(Pack(stmts[..n]), stmts[n]);
    }
  }

  lemma PlacedIsPut(p: Packed, s: string)
    ensures Placed(p, s) == Put(p, s, 1, CHUNK_BYTES)
  {
    assert [] + [s] == [s];
  }

  lemma NoneGreedy(sep: nat, budget: nat)
    ensures Greedy([], sep, budget)
  {
  }

  /** So the chunker closes a chunk only when the next statement does not fit. */
  lemma ChunksGreedy(stmts: seq<string>)
    ensures var cs := Chunks(stmts); forall i :: 0 < i < |cs| ==>
              cs[i] != [] && |ChunkText(cs[i - 1])| + |cs[i][0]| + 1 > CHUNK_BYTES
  {
    hide ChunkText, Pack, Total;
    PackGreedy(stmts);
    assert Chunks(stmts) == Batches(Pack(stmts));
    var cs := Chunks(stmts);
    forall i | 0 < i < |cs|
      ensures cs[i] != [] && |ChunkText(cs[i - 1])| + |cs[i][0]| + 1 > CHUNK_BYTES
    {
      assert Needed(cs, i, 1, CHUNK_BYTES);
      ChunkTextLength(cs[i - 1]);
    }
  }

  lemma {:induction false} CountryGreedy(cidrs: seq<string>)
    ensures Greedy(Batches(Country(cidrs)), 2, HALF) && Started(Country(cidrs))
  {
    hide Total, Greedy;
    if cidrs == [] {
      NoneGreedy(2, HALF);
    } else {
      CountryGreedy(cidrs[..|cidrs| - 1]);
      PutGreedy(Country(cidrs[..|cidrs| - 1]), cidrs[|cidrs| - 1], 2, HALF);
    }
  }

  /** And so does the geoip batcher. */
  lemma CountryBatchesGreedy(cidrs: seq<string>)
    ensures Greedy(CountryBatches(cidrs), 2, HALF)
  {
    hide Country, Total;
    CountryGreedy(cidrs);
    assert CountryBatches(cidrs) == Batches(Country(cidrs));
  }

  lemma {:induction false} GatherFull(elements: seq<string>)
    ensures forall b :: b in Gather(elements).full ==> Total(b, 2) >= HALF
  {
    hide Total;
    if elements != [] {
      GatherFull(elements[..|elements| - 1]);
    }
  }

  /** Element batches are closed only once they reach half the budget. */
  lemma ElementsFull(elements: seq<string>)
    ensures var bs := ElementBatches(elements); forall i :: 0 <= i < |bs| - 1 ==> Total(bs[i], 2) >= HALF
  {
    hide Total, Gather;
    GatherFull(elements);
    var p := Gather(elements);
    assert forall i :: 0 <= i < |p.full| ==> p.full[i] in p.full;
  }
}
