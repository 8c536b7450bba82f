/** The ruleset splitter: one scan of the printed table gives a skeleton and
    batches that rebuild the table. */
module Split {
  import opened Chunk

  // ---------------------------------------------------------------- line text

  predicate Blank(c: char) {
    c == ' ' || c == '\t' || c == '\r' || c == '\n'
  }

  function StripLeft(s: string): string {
    if s != "" && Blank(s[0]) then StripLeft(s[1..]) else s
  }

  function StripRight(s: string): string {
    if s != "" && Blank(s[|s| - 1]) then StripRight(s[..|s| - 1]) else s
  }

  function Trim(s: string): string {
    StripRight(StripLeft(s))
  }

  predicate Trimmed(s: string) {
    s != "" && !Blank(s[0]) && !Blank(s[|s| - 1])
  }

  lemma {:induction false} TrimPadded(pad: string, s: string)
    requires Trimmed(s) && forall c :: c in pad ==> Blank(c)
    ensures Trim(pad + s) == s
  {
    if pad == "" {
      assert pad + s == s;
    } else {
      assert pad[0] in pad && (pad + s)[1..] == pad[1..] + s;
      TrimPadded(pad[1..], s);
    }
  }

  predicate EndsWith(s: string, c: char) {
    s != "" && s[|s| - 1] == c
  }

  /** The text before the first c, and the text after it. */
  function Before(s: string, c: char): string {
    if s == "" || s[0] == c then "" else [s[0]] + Before(s[1..], c)
  }

  function After(s: string, c: char): string {
    if s == "" then "" else if s[0] == c then s[1..] else After(s[1..], c)
  }

  lemma {:induction false} AroundFirst(a: string, c: char, b: string)
    requires c !in a
    ensures Before(a + [c] + b, c) == a && After(a + [c] + b, c) == b
  {
    var s := a + [c] + b;
    if a != "" {
      assert s[1..] == a[1..] + [c] + b && a[0] in a;
      AroundFirst(a[1..], c, b);
    }
  }

  function FirstWord(s: string): string {
    Before(s, ' ')
  }

  /** The second word; "None" is what a missing name prints as. */
  function SecondWord(s: string): string {
    if ' ' in s then Before(After(s, ' '), ' ') else "None"
  }

  predicate Mentions(s: string, word: string) {
    word <= s || (s != "" && Mentions(s[1..], word))
  }

  /** The comma-separated items of an elements row, trimmed, empties dropped. */
  function Items(row: string): seq<string>
    decreases |row|
  {
    var item := Trim(Before(row, ','));
    (if item == "" then [] else [item])
    + if ',' in row then (AfterShorter(row, ','); Items(After(row, ','))) else []
  }

  lemma {:induction false} AfterShorter(s: string, c: char)
    requires c in s
    ensures |After(s, c)| < |s|
  {
    if s[0] != c {
      AfterShorter(s[1..], c);
    }
  }

  predicate CleanItem(s: string) {
    Trimmed(s) && ',' !in s
  }

  /** A row as printed: the items joined by commas, a comma left at the end
      when more rows follow. */
  function Row(items: seq<string>, more: bool): string {
    if items == [] then ""
    else items[0] + if |items| == 1 then (if more then "," else "") else ", " + Row(items[1..], more)
  }

  lemma {:induction false} BeforeAll(s: string, c: char)
    requires c !in s
    ensures Before(s, c) == s
  {
    if s != "" {
      assert s[0] in s;
      BeforeAll(s[1..], c);
    }
  }

  lemma {:induction false} BlankLead(row: string)
    requires row != "" && !Blank(row[0])
    ensures Items(" " + row) == Items(row)
  {
    var r := " " + row;
    assert r[1..] == row;
    assert Before(r, ',') == " " + Before(row, ',') && After(r, ',') == After(row, ',');
    var b := " " + Before(row, ',');
    assert b[1..] == Before(row, ',');
    assert StripLeft(b) == StripLeft(Before(row, ','));
  }

  lemma ItemsCons(e: string, tail: string)
    requires CleanItem(e)
    ensures Items(e + [','] + tail) == [e] + Items(tail)
  {
    hide StripLeft, StripRight, Before, After;
    AroundFirst(e, ',', tail);
    TrimPadded("", e);
    assert "" + e == e;
    assert ',' in e + [','] + tail;
  }

  lemma ItemsOne(e: string)
    requires CleanItem(e)
    ensures Items(e) == [e]
  {
    hide StripLeft, StripRight, Before, After;
    BeforeAll(e, ',');
    TrimPadded("", e);
    assert "" + e == e;
  }

  /** Reading a printed row gives its items back. */
  lemma {:induction false} RowsReadBack(items: seq<string>, more: bool)
    requires items != [] && forall e :: e in items ==> CleanItem(e)
    ensures Items(Row(items, more)) == items && Row(items, more) != "" && !Blank(Row(items, more)[0])
  {
    hide Items, Blank;
    var e := items[0];
    assert CleanItem(e);
    if |items| == 1 {
      assert items == [e];
      ItemsOne(e);
      ItemsCons(e, "");
      assert Items("") == [] by { NoItems(); }
      assert Row(items, more) == if more then e + [','] + "" else e;
    } else {
      RowsReadBack(items[1..], more);
      var rest := Row(items[1..], more);
      assert Row(items, more) == e + [','] + (" " + rest);
      ItemsCons(e, " " + rest);
      BlankLead(rest);
      assert items == [e] + items[1..];
    }
  }

  lemma NoItems()
    ensures Items("") == []
  {
  }

  // -------------------------------------------------------------------- the scan

  datatype Stmt = AddRule(chain: string, rule: string) | AddElements(name: string, items: seq<string>)

  function Text(table: string, s: Stmt): string {
    match s
    case AddRule(chain, rule) => "add rule " + table + " " + chain + " " + rule
    case AddElements(name, items) => ElementText(table, name, items)
  }

  function Texts(table: string, ss: seq<Stmt>): seq<string> {
    if ss == [] then [] else Texts(table, ss[..|ss| - 1]) + [Text(table, ss[|ss| - 1])]
  }

  datatype Where = AtTable | InChain | InObject | InElements

  /** The scanner's variables; the chunkers as the statements given to them. */
  datatype Scan = Scan(
    at: Where, chain: string, holder: string, interval: bool, items: seq<string>,
    skeleton: seq<string>, elems: seq<Stmt>, rules: seq<Stmt>)

  const PAD := "    "
  const PAD2 := "        "

  predicate Noise(line: string) {
    line == "" || line[0] == '#'
  }

  /** The lines that declare, delete and open the table. */
  predicate Framing(line: string) {
    "delete table" <= line || "table " <= line
  }

  predicate IsHeader(line: string) {
    "type " <= line || "policy " <= line
  }

  function Batched(name: string, batches: seq<seq<string>>): seq<Stmt> {
    if batches == [] then []
    else Batched(name, batches[..|batches| - 1]) + [AddElements(name, batches[|batches| - 1])]
  }

  function Additions(name: string, items: seq<string>, interval: bool,
      collapse: seq<string> -> seq<string>): seq<Stmt> {
    Batched(name, ElementBatches(if interval then collapse(items) else items))
  }

  /** One trimmed line that is not noise. */
  function Next(line: string, s: Scan, collapse: seq<string> -> seq<string>): Scan {
    if Framing(line) then s
    else if s.at.InElements? then
      if line == "}" then
        s.(at := InObject, items := [], elems := s.elems + Additions(s.holder, s.items, s.interval, collapse))
      else s.(items := s.items + Items(line))
    else if line == "}" then
      if s.at.AtTable? then s else s.(at := AtTable, chain := "", holder := "", skeleton := s.skeleton + [PAD + "}"])
    else if EndsWith(line, '{') then
      if s.at.InObject? && FirstWord(line) == "elements" then s.(at := InElements)
      else if FirstWord(line) in ["chain", "map"] then
        s.(at := InChain, chain := SecondWord(line), skeleton := s.skeleton + [PAD + line])
      else s.(at := InObject, holder := SecondWord(line), interval := false, skeleton := s.skeleton + [PAD + line])
    else if s.at.InObject? then
      s.(interval := s.interval || Mentions(line, "interval"), skeleton := s.skeleton + [PAD2 + line])
    else if s.at.InChain? then
      if IsHeader(line) then s.(skeleton := s.skeleton + [PAD2 + line])
      else s.(rules := s.rules + [AddRule(s.chain, line)])
    else s.(skeleton := s.skeleton + [PAD + line])
  }

  function Scanned(lines: seq<string>, s: Scan, collapse: seq<string> -> seq<string>): Scan {
    if lines == [] then s else Next(lines[|lines| - 1], Scanned(lines[..|lines| - 1], s, collapse), collapse)
  }

  /** The lines a reader sees: trimmed, blanks and comments dropped. */
  function Clean(raw: seq<string>): seq<string> {
    if raw == [] then []
    else
      var line := Trim(raw[|raw| - 1]);
      Clean(raw[..|raw| - 1]) + if Noise(line) then [] else [line]
  }

  function Opening(table: string): seq<string> {
    ["table " + table, "delete table " + table, "table " + table + " {"]
  }

  function Start(table: string): Scan {
    Scan(AtTable, "", "", false, [], Opening(table), [], [])
  }

  function SkeletonOf(s: Scan): seq<string> {
    s.skeleton + ["}"]
  }

  function ChunksOf(table: string, s: Scan): seq<seq<string>> {
    Chunks(Texts(table, s.elems)) + Chunks(Texts(table, s.rules))
  }

  /** The skeleton and the chunks, as texts, of these lines. */
  function SkeletonText(raw: seq<string>, table: string, collapse: seq<string> -> seq<string>): seq<string> {
    SkeletonOf(Scanned(Clean(raw), Start(table), collapse))
  }

  function ChunkTextsOf(raw: seq<string>, table: string, collapse: seq<string> -> seq<string>): seq<string> {
    ChunkTexts(ChunksOf(table, Scanned(Clean(raw), Start(table), collapse)))
  }

  lemma {:induction false} TextsPlus(table: string, a: seq<Stmt>, b: seq<Stmt>)
    ensures Texts(table, a + b) == Texts(table, a) + Texts(table, b)
  {
    hide Text;
    if b == [] {
      assert a + b == a;
    } else {
      assert (a + b)[..|a + b| - 1] == a + b[..|b| - 1];
      TextsPlus(table, a, b[..|b| - 1]);
    }
  }

  lemma {:induction false} BatchedTexts(table: string, name: string, batches: seq<seq<string>>)
    ensures Texts(table, Batched(name, batches)) == ElementTexts(table, name, batches)
  {
    hide ElementText;
    if batches != [] {
      BatchedTexts(table, name, batches[..|batches| - 1]);
      TextsPlus(table, Batched(name, batches[..|batches| - 1]), [AddElements(name, batches[|batches| - 1])]);
      assert Texts(table, [AddElements(name, batches[|batches| - 1])][..0]) == [];
    }
  }

  lemma {:induction false} ChunkTextsPlus(a: seq<seq<string>>, b: seq<seq<string>>)
    ensures ChunkTexts(a + b) == ChunkTexts(a) + ChunkTexts(b)
  {
    hide ChunkText;
    if b == [] {
      assert a + b == a;
    } else {
      assert (a + b)[..|a + b| - 1] == a + b[..|b| - 1];
      ChunkTextsPlus(a, b[..|b| - 1]);
    }
  }

  /** One scan of the printed lines. */
  method SplitLines(raw: seq<string>, table: string, collapse: seq<string> -> seq<string>)
    returns (skeleton: seq<string>, chunks: seq<string>)
    ensures skeleton == SkeletonText(raw, table, collapse) && chunks == ChunkTextsOf(raw, table, collapse)
  {
    hide Trim, Items, ElementText, Chunk.ElementBatches, Placed, Mentions, Texts;
    skeleton := Opening(table);
    var elementsOut := new Chunker();
    var rulesOut := new Chunker();
    var at, chain, holder, interval := AtTable, "", "", false;
    var items: seq<string> := [];
    ghost var elems: seq<Stmt>, rules: seq<Stmt> := [], [];
    NoTexts(table);
    for i := 0 to |raw|
      invariant elementsOut.Valid() && rulesOut.Valid() && elementsOut != rulesOut
      invariant fresh(elementsOut) && fresh(rulesOut)
      invariant Scanned(Clean(raw[..i]), Start(table), collapse) ==
                Scan(at, chain, holder, interval, items, skeleton, elems, rules)
      invariant elementsOut.State() == Pack(Texts(table, elems)) && rulesOut.State() == Pack(Texts(table, rules))
    {
      CleanNext(raw, i, Start(table), collapse);
      var line := Trim(raw[i]);
      if Noise(line) || Framing(line) {
        continue;
      }
      if at.InElements? {
        if line == "}" {
          var batch := if interval then collapse(items) else items;
          ElementStatements(table, holder, batch, elementsOut);
          ElementsAdded(table, elems, holder, batch);
          elems := elems + Batched(holder, ElementBatches(batch));
          items := [];
          at := InObject;
        } else {
          items := items + Items(line);
        }
      } else if line == "}" {
        if !at.AtTable? {
          skeleton := skeleton + [PAD + "}"];
          at, chain, holder := AtTable, "", "";
        }
      } else if EndsWith(line, '{') {
        var first := FirstWord(line);
        if at.InObject? && first == "elements" {
          at := InElements;
        } else {
          if first in ["chain", "map"] {
            at, chain := InChain, SecondWord(line);
          } else {
            at, holder, interval := InObject, SecondWord(line), false;
          }
          skeleton := skeleton + [PAD + line];
        }
      } else if at.InObject? {
        if Mentions(line, "interval") {
          interval := true;
        }
        skeleton := skeleton + [PAD2 + line];
      } else if at.InChain? {
        if IsHeader(line) {
          skeleton := skeleton + [PAD2 + line];
        } else {
          rulesOut.Add(Text(table, AddRule(chain, line)));
          RuleAdded(table, rules, AddRule(chain, line));
          rules := rules + [AddRule(chain, line)];
        }
      } else {
        skeleton := skeleton + [PAD + line];
      }
    }
    assert raw[..|raw|] == raw;
    elementsOut.Flush();
    rulesOut.Flush();
    skeleton := skeleton + ["}"];
    chunks := elementsOut.chunks + rulesOut.chunks;
    ChunkTextsPlus(Chunks(Texts(table, elems)), Chunks(Texts(table, rules)));
  }

  lemma NoTexts(table: string)
    ensures Texts(table, []) == [] && Pack([]) == Packed([], [])
  {
  }

  lemma CleanNext(raw: seq<string>, i: nat, s: Scan, collapse: seq<string> -> seq<string>)
    requires i < |raw|
    ensures Scanned(Clean(raw[..i + 1]), s, collapse) ==
            if Noise(Trim(raw[i])) then Scanned(Clean(raw[..i]), s, collapse)
            else Next(Trim(raw[i]), Scanned(Clean(raw[..i]), s, collapse), collapse)
  {
    hide Trim, Next;
    assert raw[..i + 1][..i] == raw[..i];
    var before, line := Clean(raw[..i]), Trim(raw[i]);
    if !Noise(line) {
      assert Clean(raw[..i + 1]) == before + [line];
      assert (before + [line])[..|before|] == before;
    } else {
      assert Clean(raw[..i + 1]) == before;
    }
  }

  lemma ElementsAdded(table: string, elems: seq<Stmt>, name: string, items: seq<string>)
    ensures Pack(Texts(table, elems + Batched(name, ElementBatches(items)))) ==
            PlacedAll(Pack(Texts(table, elems)), ElementTexts(table, name, ElementBatches(items)))
  {
    hide Texts, Pack, ElementTexts, ElementBatches;
    TextsPlus(table, elems, Batched(name, ElementBatches(items)));
    BatchedTexts(table, name, ElementBatches(items));
    PackPlus(Texts(table, elems), ElementTexts(table, name, ElementBatches(items)));
  }

  lemma RuleAdded(table: string, rules: seq<Stmt>, r: Stmt)
    ensures Pack(Texts(table, rules + [r])) == Placed(Pack(Texts(table, rules)), Text(table, r))
  {
    hide Text, Placed;
    assert (rules + [r])[..|rules|] == rules;
    var ts := Texts(table, rules);
    assert (ts + [Text(table, r)])[..|ts|] == ts;
  }
}
