/** Splitting loses nothing: the skeleton is the printed table without rules
    and elements, and the batches put every rule and element back. */
module SplitLossless {
  import opened Wrappers
  import opened Chunk
  import opened Split
  import opened SplitRead

  // -------------------------------------------------------------- the printed table

  datatype Item =
    | Chain(name: string, headers: seq<string>, rules: seq<string>)
    | Set(name: string, decl: seq<string>, elements: seq<string>)
    | Block(head: string, body: seq<string>)
    | Single(line: string)

  /** Elements are printed eight to a row. */
  function Rows(elements: seq<string>): seq<string> {
    if |elements| <= 8 then [Row(elements, false)] else [Row(elements[..8], true)] + Rows(elements[8..])
  }

  function Print(it: Item): seq<string> {
    match it
    case Chain(n, headers, rules) => ["chain " + n + " {"] + headers + rules + ["}"]
    case Set(n, decl, elements) =>
      ["set " + n + " {"] + decl + (if elements != [] then ["elements = {"] + Rows(elements) + ["}"] else []) + ["}"]
    case Block(head, body) => [head] + body + ["}"]
    case Single(line) => [line]
  }

  function PrintAll(items: seq<Item>): seq<string> {
    if items == [] then [] else PrintAll(items[..|items| - 1]) + Print(items[|items| - 1])
  }

  function PrintTable(table: string, items: seq<Item>): seq<string> {
    Opening(table) + PrintAll(items) + ["}"]
  }

  /** The item with its rules and elements left out. */
  function Bared(it: Item): Item {
    match it
    case Chain(n, headers, _) => Chain(n, headers, [])
    case Set(n, decl, _) => Set(n, decl, [])
    case _ => it
  }

  function AllBared(items: seq<Item>): seq<Item> {
    if items == [] then [] else AllBared(items[..|items| - 1]) + [Bared(items[|items| - 1])]
  }

  /** A line the scan takes for neither framing, a comment nor a closing brace. */
  predicate Ordinary(line: string) {
    Trimmed(line) && line[0] != '#' && !TableLine(line) && line != "}" && '\n' !in line
  }

  predicate Inner(line: string) {
    Ordinary(line) && !EndsWith(line, '{')
  }

  /** The form the emitter prints: one statement a line, headers first. */
  predicate Shaped(it: Item) {
    match it
    case Chain(n, headers, rules) =>
      NameOk(n) && (forall l :: l in headers ==> Inner(l) && HookLine(l))
      && (forall l :: l in rules ==> Inner(l) && !HookLine(l))
    case Set(n, decl, elements) =>
      NameOk(n) && (forall l :: l in decl ==> Inner(l)) && forall e :: e in elements ==> ElementOk(e)
    case Block(head, body) =>
      Ordinary(head) && EndsWith(head, '{') && FirstWord(head) !in ["chain", "map", "set"]
          && forall l :: l in body ==> Inner(l)
    case Single(line) => Inner(line)
  }

  predicate Interval(decl: seq<string>) {
    exists l :: l in decl && Mentions(l, "interval")
  }

  // ------------------------------------------------------------- element rows

  predicate SpacesFollowCommas(s: string) {
    forall i :: 0 <= i < |s| && s[i] == ' ' ==> i > 0 && s[i - 1] == ','
  }

  lemma SpacesPlus(e: string, rest: string)
    requires ' ' !in e && SpacesFollowCommas(rest)
    ensures SpacesFollowCommas(e + ", " + rest)
  {
    var row, n := e + ", " + rest, |e|;
    assert row[n] == ',';
    forall i | 0 <= i < n
      ensures row[i] != ' '
    {
      assert row[i] == e[i] && e[i] in e;
    }
    forall i | 0 <= i < |row| && row[i] == ' '
      ensures i > 0 && row[i - 1] == ','
    {
      if i >= n + 2 {
        var k := i - n - 2;
        assert row[i] == rest[k];
        assert row[i - 1] == rest[k - 1];
      }
    }
  }

  /** In a printed row a space stands only after a comma. */
  lemma {:induction false} RowSpaces(items: seq<string>, more: bool)
    requires forall e :: e in items ==> ElementOk(e)
    ensures SpacesFollowCommas(Row(items, more))
  {
    hide CleanItem;
    if items != [] {
      assert items[0] in items && ' ' !in items[0];
      if |items| > 1 {
        RowSpaces(items[1..], more);
        SpacesPlus(items[0], Row(items[1..], more));
        assert Row(items, more) == items[0] + ", " + Row(items[1..], more);
      } else {
        assert ' ' !in Row(items, more);
      }
    }
  }

  lemma ElementEnds(e: string)
    requires ElementOk(e)
    ensures e != "" && !Blank(e[0]) && e[0] != '#' && e[0] != '}' && !Blank(e[|e| - 1]) && e[|e| - 1] != '{'
        && '\n' !in e
  {
    assert e[0] in e && e[|e| - 1] in e;
  }

  lemma {:induction false} RowEnds(items: seq<string>, more: bool)
    requires items != [] && forall e :: e in items ==> ElementOk(e)
    ensures var row := Row(items, more); var n := |row| - 1;
            row != "" && !Blank(row[0]) && row[0] != '#' && row[0] != '}' && !Blank(row[n]) && row[n] != '{'
  {
    hide ElementOk;
    assert items[0] in items;
    ElementEnds(items[0]);
    if |items| > 1 {
      RowEnds(items[1..], more);
    }
  }

  /** A printed row is an ordinary line. */
  lemma RowInner(items: seq<string>, more: bool)
    requires items != [] && forall e :: e in items ==> ElementOk(e)
    ensures Inner(Row(items, more))
  {
    hide Row, ElementOk;
    RowEnds(items, more);
    RowSpaces(items, more);
    forall e | e in items
      ensures '\n' !in e
    {
      ElementEnds(e);
    }
    RowNoBreak(items, more);
    NotFraming(Row(items, more));
  }

  lemma PrefixAt(prefix: string, row: string, i: nat)
    requires i < |prefix|
    ensures prefix <= row ==> i < |row| && row[i] == prefix[i]
  {
    if prefix <= row {
      assert row[..|prefix|][i] == prefix[i];
    }
  }

  lemma NotFraming(row: string)
    requires SpacesFollowCommas(row)
    ensures !TableLine(row)
  {
    PrefixAt("table ", row, 4);
    PrefixAt("table ", row, 5);
    PrefixAt("delete table", row, 5);
    PrefixAt("delete table", row, 6);
  }

  /** The rows are ordinary lines, and hold the elements in order. */
  lemma {:induction false} RowsHold(elements: seq<string>)
    requires elements != [] && forall e :: e in elements ==> ElementOk(e)
    ensures (forall l :: l in Rows(elements) ==> Inner(l)) && RowItems(Rows(elements)) == elements
  {
    hide Row, Inner, Items, ElementOk;
    AllClean(elements);
    if |elements| <= 8 {
      RowInner(elements, false);
      RowsReadBack(elements, false);
      assert Rows(elements)[1..] == [];
    } else {
      var a, b := elements[..8], elements[8..];
      assert elements == a + b;
      assert forall e :: e in a ==> e in elements;
      assert forall e :: e in b ==> e in elements;
      RowInner(a, true);
      RowsReadBack(a, true);
      RowsHold(b);
      assert Rows(elements)[1..] == Rows(b);
    }
  }

  lemma {:induction false} ItemsSnoc(rows: seq<string>, row: string)
    ensures RowItems(rows + [row]) == RowItems(rows) + Items(row)
  {
    hide Items;
    if rows == [] {
      assert rows + [row] == [row] && [row][1..] == [];
    } else {
      assert (rows + [row])[1..] == rows[1..] + [row];
      ItemsSnoc(rows[1..], row);
    }
  }

  // ----------------------------------------------------------- what the scan yields

  function Padded(pad: string, lines: seq<string>): seq<string> {
    if lines == [] then [] else Padded(pad, lines[..|lines| - 1]) + [pad + lines[|lines| - 1]]
  }

  function RuleStmts(chain: string, rules: seq<string>): seq<Stmt> {
    if rules == [] then [] else RuleStmts(chain, rules[..|rules| - 1]) + [AddRule(chain, rules[|rules| - 1])]
  }

  function ItemSkeleton(it: Item): seq<string> {
    match it
    case Chain(n, headers, _) => [PAD + ("chain " + n + " {")] + Padded(PAD2, headers) + [PAD + "}"]
    case Set(n, decl, _) => [PAD + ("set " + n + " {")] + Padded(PAD2, decl) + [PAD + "}"]
    case Block(head, body) => [PAD + head] + Padded(PAD2, body) + [PAD + "}"]
    case Single(line) => [PAD + line]
  }

  function ItemElems(it: Item, collapse: seq<string> -> seq<string>): seq<Stmt> {
    if it.Set? && it.elements != [] then Additions(it.name, it.elements, Interval(it.decl), collapse) else []
  }

  function ItemRules(it: Item): seq<Stmt> {
    if it.Chain? then RuleStmts(it.name, it.rules) else []
  }

  function AllSkeleton(items: seq<Item>): seq<string> {
    if items == [] then [] else AllSkeleton(items[..|items| - 1]) + ItemSkeleton(items[|items| - 1])
  }

  function AllElems(items: seq<Item>, collapse: seq<string> -> seq<string>): seq<Stmt> {
    if items == [] then [] else AllElems(items[..|items| - 1], collapse) + ItemElems(items[|items| - 1], collapse)
  }

  function AllRules(items: seq<Item>): seq<Stmt> {
    if items == [] then [] else AllRules(items[..|items| - 1]) + ItemRules(items[|items| - 1])
  }

  lemma {:induction false} ScannedPlus(a: seq<string>, b: seq<string>, s: Scan, collapse: seq<string> -> seq<string>)
    ensures Scanned(a + b, s, collapse) == Scanned(b, Scanned(a, s, collapse), collapse)
  {
    hide Next;
    if b == [] {
      assert a + b == a;
    } else {
      assert (a + b)[..|a + b| - 1] == a + b[..|b| - 1];
      ScannedPlus(a, b[..|b| - 1], s, collapse);
    }
  }

  lemma ScannedOne(line: string, s: Scan, collapse: seq<string> -> seq<string>)
    ensures Scanned([line], s, collapse) == Next(line, s, collapse)
  {
    hide Next;
    assert Scanned([line][..0], s, collapse) == s;
  }

  lemma {:induction false} ScanHeaders(lines: seq<string>, s: Scan, collapse: seq<string> -> seq<string>)
    requires s.at.InChain? && forall l :: l in lines ==> Inner(l) && HookLine(l)
    ensures Scanned(lines, s, collapse) == s.(skeleton := s.skeleton + Padded(PAD2, lines))
  {
    hide HookLine, IsHeader, TableLine, Framing, Trimmed;
    LineKinds();
    if lines != [] {
      ScanHeaders(lines[..|lines| - 1], s, collapse);
      assert lines[|lines| - 1] in lines;
    }
  }

  lemma {:induction false} ScanRules(lines: seq<string>, s: Scan, collapse: seq<string> -> seq<string>)
    requires s.at.InChain? && forall l :: l in lines ==> Inner(l) && !HookLine(l)
    ensures Scanned(lines, s, collapse) == s.(rules := s.rules + RuleStmts(s.chain, lines))
  {
    hide HookLine, IsHeader, TableLine, Framing, Trimmed;
    LineKinds();
    if lines != [] {
      ScanRules(lines[..|lines| - 1], s, collapse);
      assert lines[|lines| - 1] in lines;
    }
  }

  lemma IntervalSnoc(decl: seq<string>, l: string)
    ensures Interval(decl + [l]) <==> Interval(decl) || Mentions(l, "interval")
  {
    hide Mentions;
    assert l in decl + [l];
    assert forall m :: m in decl ==> m in decl + [l];
  }

  lemma {:induction false} ScanDecl(lines: seq<string>, s: Scan, collapse: seq<string> -> seq<string>)
    requires s.at.InObject? && forall l :: l in lines ==> Inner(l)
    ensures Scanned(lines, s, collapse) ==
            s.(skeleton := s.skeleton + Padded(PAD2, lines), interval := s.interval || Interval(lines))
  {
    hide Mentions, Trimmed, Interval;
    if lines == [] {
      assert !Interval([]) by { NoInterval(); }
    } else {
      var pre, l := lines[..|lines| - 1], lines[|lines| - 1];
      ScanDecl(pre, s, collapse);
      assert l in lines && lines == pre + [l];
      IntervalSnoc(pre, l);
    }
  }

  lemma NoInterval()
    ensures !Interval([])
  {
  }

  lemma {:induction false} ScanRows(lines: seq<string>, s: Scan, collapse: seq<string> -> seq<string>)
    requires s.at.InElements? && forall l :: l in lines ==> Ordinary(l)
    ensures Scanned(lines, s, collapse) == s.(items := s.items + RowItems(lines))
  {
    hide Items, Trimmed, RowItems;
    if lines == [] {
      assert RowItems([]) == [] by { NoRows(); }
    } else {
      var pre, l := lines[..|lines| - 1], lines[|lines| - 1];
      ScanRows(pre, s, collapse);
      assert l in lines && lines == pre + [l];
      ItemsSnoc(pre, l);
    }
  }

  lemma NoRows()
    ensures RowItems([]) == []
  {
  }

  /** A head line "word name {" reads as that word and name. */
  lemma HeadWords(word: string, name: string)
    requires NameOk(word) && NameOk(name) && word in ["chain", "set"]
    ensures var line := word + " " + name + " {";
            && FirstWord(line) == word && SecondWord(line) == name && EndsWith(line, '{')
            && !TableLine(line) && line != "}" && Trimmed(line) && line[0] != '#'
  {
    var line := word + " " + name + " {";
    assert line == word + [' '] + (name + " {");
    AroundFirst(word, ' ', name + " {");
    assert name + " {" == name + [' '] + "{";
    AroundFirst(name, ' ', "{");
    assert line[0] == word[0] && line[1] == word[1] && line[|line| - 1] == '{';
    assert "delete table"[0] == 'd' && "table "[0] == 't';
  }

  ghost predicate Yields(r: Scan, s: Scan, skeleton: seq<string>, elems: seq<Stmt>, rules: seq<Stmt>) {
    && r.at.AtTable? && r.items == []
    && r.skeleton == s.skeleton + skeleton && r.elems == s.elems + elems && r.rules == s.rules + rules
  }

  lemma ScanChain(it: Item, s: Scan, collapse: seq<string> -> seq<string>)
    requires it.Chain? && Shaped(it) && s.at.AtTable? && s.items == []
    ensures Yields(Scanned(Print(it), s, collapse), s, ItemSkeleton(it), [], ItemRules(it))
  {
    hide Scanned, Trimmed, HookLine, EndsWith, Padded, RuleStmts, FirstWord, SecondWord, TableLine, Inner, NameOk,
         Mentions, Additions, Items;
    var head := "chain " + it.name + " {";
    assert head == "chain" + " " + it.name + " {";
    assert NameOk("chain") by { ChainWord(); }
    HeadWords("chain", it.name);
    BraceOrdinary();
    ScannedPlus([head] + it.headers + it.rules, ["}"], s, collapse);
    ScannedPlus([head] + it.headers, it.rules, s, collapse);
    ScannedPlus([head], it.headers, s, collapse);
    ScannedOne(head, s, collapse);
    var s1 := Scanned([head], s, collapse);
    ScanHeaders(it.headers, s1, collapse);
    var s2 := Scanned(it.headers, s1, collapse);
    ScanRules(it.rules, s2, collapse);
    ScannedOne("}", Scanned(it.rules, s2, collapse), collapse);
  }

  lemma ChainWord()
    ensures NameOk("chain") && NameOk("set")
  {
  }

  lemma FramingStarts(line: string)
    requires line != "" && line[0] != 'd' && line[0] != 't'
    ensures !TableLine(line)
  {
    PrefixAt("delete table", line, 0);
    PrefixAt("table ", line, 0);
  }

  lemma CloseOrdinary()
    ensures !TableLine("}") && !EndsWith("}", '{') && Trimmed("}")
  {
    hide TableLine;
    FramingStarts("}");
  }

  lemma OpenElements()
    ensures !TableLine("elements = {") && EndsWith("elements = {", '{') && FirstWord("elements = {") == "elements"
  {
    hide TableLine, Before, Trim;
    FramingStarts("elements = {");
    assert "elements = {" == "elements" + [' '] + "= {";
    AroundFirst("elements", ' ', "= {");
  }

  lemma BraceOrdinary()
    ensures !TableLine("}") && !EndsWith("}", '{') && Trimmed("}")
    ensures !TableLine("elements = {") && EndsWith("elements = {", '{') && FirstWord("elements = {") == "elements"
  {
    hide *;
    CloseOrdinary();
    OpenElements();
  }

  lemma ScanBlock(it: Item, s: Scan, collapse: seq<string> -> seq<string>)
    requires it.Block? && Shaped(it) && s.at.AtTable? && s.items == []
    ensures Yields(Scanned(Print(it), s, collapse), s, ItemSkeleton(it), [], [])
  {
    hide Framing, Scanned, Trimmed, HookLine, EndsWith, Padded, FirstWord, SecondWord, TableLine, Inner, Mentions,
         Additions, Items, Interval;
    LineKinds();
    BraceOrdinary();
    ScannedPlus([it.head] + it.body, ["}"], s, collapse);
    ScannedPlus([it.head], it.body, s, collapse);
    ScannedOne(it.head, s, collapse);
    var s1 := Scanned([it.head], s, collapse);
    ScanDecl(it.body, s1, collapse);
    ScannedOne("}", Scanned(it.body, s1, collapse), collapse);
  }

  lemma ScanSetDecl(it: Item, s: Scan, collapse: seq<string> -> seq<string>)
    requires it.Set? && Shaped(it) && s.at.AtTable? && s.items == []
    ensures var r := Scanned(["set " + it.name + " {"] + it.decl, s, collapse);
            && r.at.InObject? && r.holder == it.name && r.interval == Interval(it.decl) && r.items == []
            && r.skeleton == s.skeleton + [PAD + ("set " + it.name + " {")] + Padded(PAD2, it.decl)
            && r.elems == s.elems && r.rules == s.rules
  {
    hide Scanned, Trimmed, HookLine, EndsWith, Padded, FirstWord, SecondWord, TableLine, Inner, NameOk, Mentions,
         Additions, Items, Interval;
    var head := "set " + it.name + " {";
    assert head == "set" + " " + it.name + " {";
    ChainWord();
    HeadWords("set", it.name);
    ScannedPlus([head], it.decl, s, collapse);
    ScannedOne(head, s, collapse);
    ScanDecl(it.decl, Scanned([head], s, collapse), collapse);
  }

  lemma InnerOrdinary(lines: seq<string>)
    requires forall l :: l in lines ==> Inner(l)
    ensures forall l :: l in lines ==> Ordinary(l)
  {
    hide Ordinary;
  }

  lemma ScanSet(it: Item, s: Scan, collapse: seq<string> -> seq<string>)
    requires it.Set? && Shaped(it) && s.at.AtTable? && s.items == []
    ensures Yields(Scanned(Print(it), s, collapse), s, ItemSkeleton(it), ItemElems(it, collapse), [])
  {
    hide Framing, Scanned, Trimmed, HookLine, EndsWith, Padded, FirstWord, SecondWord, TableLine, NameOk, Mentions,
         Additions,
         Items, Interval, Inner, RowItems, Ordinary, Rows, ElementOk;
    var open := ["set " + it.name + " {"] + it.decl;
    ScanSetDecl(it, s, collapse);
    LineKinds();
    BraceOrdinary();
    var s1 := Scanned(open, s, collapse);
    assert s1.skeleton + [PAD + "}"] == s.skeleton + ItemSkeleton(it);
    assert s.elems + [] == s.elems && s.rules + [] == s.rules;
    if it.elements != [] {
      var rows := Rows(it.elements);
      RowsHold(it.elements);
      InnerOrdinary(rows);
      assert Print(it) == open + (["elements = {"] + rows + ["}"]) + ["}"];
      ScannedPlus(open + (["elements = {"] + rows + ["}"]), ["}"], s, collapse);
      ScannedPlus(open, ["elements = {"] + rows + ["}"], s, collapse);
      ScannedPlus(["elements = {"] + rows, ["}"], s1, collapse);
      ScannedPlus(["elements = {"], rows, s1, collapse);
      ScannedOne("elements = {", s1, collapse);
      var s2 := Scanned(["elements = {"], s1, collapse);
      ScanRows(rows, s2, collapse);
      var s3 := Scanned(rows, s2, collapse);
      assert [] + RowItems(rows) == it.elements;
      ScannedOne("}", s3, collapse);
      ScannedOne("}", Scanned(["}"], s3, collapse), collapse);
    } else {
      assert Print(it) == open + ["}"];
      ScannedPlus(open, ["}"], s, collapse);
      ScannedOne("}", s1, collapse);
    }
  }

  lemma ScanItem(it: Item, s: Scan, collapse: seq<string> -> seq<string>)
    requires Shaped(it) && s.at.AtTable? && s.items == []
    ensures Yields(Scanned(Print(it), s, collapse), s, ItemSkeleton(it), ItemElems(it, collapse), ItemRules(it))
  {
    hide Scanned, Padded, Additions, RuleStmts, Trimmed, FirstWord, Mentions, Items;
    match it
    case Chain(_, _, _) => ScanChain(it, s, collapse);
    case Set(_, _, _) => ScanSet(it, s, collapse);
    case Block(_, _) => ScanBlock(it, s, collapse);
    case Single(line) => ScannedOne(line, s, collapse);
  }

  lemma {:induction false} ScanItems(items: seq<Item>, s: Scan, collapse: seq<string> -> seq<string>)
    requires (forall it :: it in items ==> Shaped(it)) && s.at.AtTable? && s.items == []
    ensures Yields(Scanned(PrintAll(items), s, collapse), s, AllSkeleton(items), AllElems(items, collapse),
        AllRules(items))
  {
    hide Scanned, Print, Shaped, ItemSkeleton, ItemElems, ItemRules;
    if items == [] {
      assert Scanned([], s, collapse) == s by { ScannedNone(s, collapse); }
    } else {
      var n := |items| - 1;
      assert items[n] in items;
      ScanItems(items[..n], s, collapse);
      ScannedPlus(PrintAll(items[..n]), Print(items[n]), s, collapse);
      ScanItem(items[n], Scanned(PrintAll(items[..n]), s, collapse), collapse);
    }
  }

  lemma ScannedNone(s: Scan, collapse: seq<string> -> seq<string>)
    ensures Scanned([], s, collapse) == s
  {
  }

  /** The whole table: framing skipped, the last brace ignored. */
  lemma ScanTable(table: string, items: seq<Item>, collapse: seq<string> -> seq<string>)
    requires forall it :: it in items ==> Shaped(it)
    ensures Yields(Scanned(PrintTable(table, items), Start(table), collapse), Start(table),
                   AllSkeleton(items), AllElems(items, collapse), AllRules(items))
  {
    hide Shaped, PrintAll, AllSkeleton, AllElems, AllRules;
    var s := Start(table);
    ScannedPlus(Opening(table) + PrintAll(items), ["}"], s, collapse);
    ScannedPlus(Opening(table), PrintAll(items), s, collapse);
    ScanOpening(table, s, collapse);
    ScanItems(items, s, collapse);
    ScannedOne("}", Scanned(PrintAll(items), s, collapse), collapse);
    BraceOrdinary();
  }

  lemma ScanOpening(table: string, s: Scan, collapse: seq<string> -> seq<string>)
    ensures Scanned(Opening(table), s, collapse) == s
  {
    var a, b, c := "table " + table, "delete table " + table, "table " + table + " {";
    assert a[..6] == "table " && b[..12] == "delete table" && c[..6] == "table ";
    assert TableLine(a) && TableLine(b) && TableLine(c);
    assert Opening(table) == [a] + [b] + [c];
    ScannedPlus([a] + [b], [c], s, collapse);
    ScannedPlus([a], [b], s, collapse);
    ScannedOne(a, s, collapse);
    ScannedOne(b, s, collapse);
    ScannedOne(c, s, collapse);
  }

  // -------------------------------------------------- the skeleton, read as text

  predicate Readable(line: string) {
    Trimmed(line) && line[0] != '#'
  }

  lemma {:induction false} CleanPlus(a: seq<string>, b: seq<string>)
    ensures Clean(a + b) == Clean(a) + Clean(b)
  {
    hide Trim, Noise;
    if b == [] {
      assert a + b == a;
    } else {
      assert (a + b)[..|a + b| - 1] == a + b[..|b| - 1];
      CleanPlus(a, b[..|b| - 1]);
    }
  }

  lemma CleanOne(pad: string, line: string)
    requires Readable(line) && forall c :: c in pad ==> Blank(c)
    ensures Clean([pad + line]) == [line]
  {
    hide Trim;
    TrimPadded(pad, line);
    assert [pad + line][..0] == [] && Clean([pad + line][..0]) == [];
  }

  lemma {:induction false} CleanPadded(pad: string, lines: seq<string>)
    requires (forall l :: l in lines ==> Readable(l)) && forall c :: c in pad ==> Blank(c)
    ensures Clean(Padded(pad, lines)) == lines
  {
    hide Readable, Blank, Clean;
    if lines == [] {
      assert Clean([]) == [] by { CleanNone(); }
    } else {
      var n := |lines| - 1;
      assert lines[n] in lines;
      CleanPadded(pad, lines[..n]);
      CleanPlus(Padded(pad, lines[..n]), [pad + lines[n]]);
      CleanOne(pad, lines[n]);
    }
  }

  lemma CleanNone()
    ensures Clean([]) == []
  {
  }

  lemma PadsBlank()
    ensures (forall c :: c in PAD ==> Blank(c)) && (forall c :: c in PAD2 ==> Blank(c)) && forall c :: c in "" ==>
        Blank(c)
    ensures Readable("}")
  {
  }

  /** A braced block of the skeleton: head, inner lines, closing brace. */
  lemma CleanBlock(head: string, inner: seq<string>)
    requires Readable(head) && forall l :: l in inner ==> Inner(l)
    ensures Clean([PAD + head] + Padded(PAD2, inner) + [PAD + "}"]) == [head] + inner + ["}"]
  {
    hide Clean, Trimmed, Padded, TableLine;
    PadsBlank();
    CleanPlus([PAD + head] + Padded(PAD2, inner), [PAD + "}"]);
    CleanPlus([PAD + head], Padded(PAD2, inner));
    CleanOne(PAD, head);
    CleanPadded(PAD2, inner);
    CleanOne(PAD, "}");
  }

  lemma CleanItemSkeleton(it: Item)
    requires Shaped(it)
    ensures Clean(ItemSkeleton(it)) == Print(Bared(it))
  {
    hide Clean, Trimmed, Padded, TableLine, HookLine, FirstWord, SecondWord, Mentions;
    ChainWord();
    match it
    case Chain(n, headers, _) =>
      HeadWords("chain", n);
      assert "chain " + n + " {" == "chain" + " " + n + " {";
      CleanBlock("chain " + n + " {", headers);
      assert Print(Bared(it)) == ["chain " + n + " {"] + headers + ["}"];
    case Set(n, decl, _) =>
      HeadWords("set", n);
      assert "set " + n + " {" == "set" + " " + n + " {";
      CleanBlock("set " + n + " {", decl);
      assert Print(Bared(it)) == ["set " + n + " {"] + decl + ["}"];
    case Block(head, body) => CleanBlock(head, body);
    case Single(line) => PadsBlank(); CleanOne(PAD, line);
  }

  lemma {:induction false} CleanSkeleton(items: seq<Item>)
    requires forall it :: it in items ==> Shaped(it)
    ensures Clean(AllSkeleton(items)) == PrintAll(AllBared(items))
  {
    hide Clean, Shaped, Print, Bared, ItemSkeleton;
    if items == [] {
      CleanNone();
    } else {
      var n := |items| - 1;
      assert items[n] in items;
      CleanSkeleton(items[..n]);
      CleanItemSkeleton(items[n]);
      CleanPlus(AllSkeleton(items[..n]), ItemSkeleton(items[n]));
      assert AllBared(items)[..n] == AllBared(items[..n]) by { BaredLength(items[..n]); }
    }
  }

  lemma {:induction false} BaredLength(items: seq<Item>)
    ensures |AllBared(items)| == |items|
    ensures forall k :: 0 <= k < |items| ==> AllBared(items)[k] == Bared(items[k])
  {
    hide Bared;
    if items != [] {
      BaredLength(items[..|items| - 1]);
    }
  }

  predicate TableOk(table: string) {
    table != "" && !Blank(table[|table| - 1]) && table[|table| - 1] != '{' && '\n' !in table
  }

  lemma CleanOpening(table: string)
    requires TableOk(table)
    ensures Clean(Opening(table)) == Opening(table)
  {
    hide Clean, Trim;
    var a, b, c := "table " + table, "delete table " + table, "table " + table + " {";
    assert a[0] == 't' && b[0] == 'd' && c[0] == 't';
    assert a[|a| - 1] == table[|table| - 1] && b[|b| - 1] == table[|table| - 1] && c[|c| - 1] == '{';
    assert "" + a == a && "" + b == b && "" + c == c;
    PadsBlank();
    CleanOne("", a);
    CleanOne("", b);
    CleanOne("", c);
    CleanPlus([a], [b]);
    CleanPlus([a] + [b], [c]);
    assert Opening(table) == [a] + [b] + [c];
  }

  // ---------------------------------------------------------------- loading

  /** The block an item is printed as. */
  function NodeOf(it: Item): Node {
    match it
    case Chain(n, headers, rules) => Braced("chain " + n + " {", Leaves(headers) + Leaves(rules))
    case Set(n, decl, elements) =>
      Braced("set " + n + " {", Leaves(decl) + if elements != [] then [Braced("elements = {", Leaves(Rows(elements)))]
          else [])
    case Block(head, body) => Braced(head, Leaves(body))
    case Single(line) => Leaf(line)
  }

  function NodesOf(items: seq<Item>): seq<Node> {
    if items == [] then [] else NodesOf(items[..|items| - 1]) + [NodeOf(items[|items| - 1])]
  }

  /** What loading an item puts into the kernel. */
  function LiveOf(it: Item): Live {
    match it
    case Chain(n, headers, rules) => LiveChain(n, headers, rules)
    case Set(n, decl, elements) => LiveSet(n, decl, elements)
    case _ => LiveOther(NodeOf(it))
  }

  lemma PrintOne(n: Node)
    ensures PrintNodes([n]) == PrintNode(n) && (NodeOk(n) ==> NodesOk([n]))
  {
    assert [n][1..] == [] && PrintNodes([]) == [];
  }

  lemma BraceNode(head: string, kids: seq<Node>)
    ensures PrintNode(Braced(head, kids)) == [head] + PrintNodes(kids) + ["}"]
    ensures head != "}" && EndsWith(head, '{') && NodesOk(kids) ==> NodeOk(Braced(head, kids))
  {
  }

  lemma InnerLeaves(lines: seq<string>)
    requires forall l :: l in lines ==> Inner(l)
    ensures PrintNodes(Leaves(lines)) == lines && NodesOk(Leaves(lines))
  {
    hide EndsWith, Trimmed, TableLine;
    LeavesPrint(lines);
  }

  /** An item prints as its block does. */
  lemma NodePrints(it: Item)
    requires Shaped(it)
    ensures Print(it) == PrintNode(NodeOf(it)) && NodeOk(NodeOf(it))
  {
    hide PrintNode, PrintNodes, NodeOk, NodesOk, Leaves, Inner, Rows, EndsWith, Trimmed, TableLine, HookLine, ElementOk,
         NameOk, FirstWord, SecondWord;
    ChainWord();
    BraceOrdinary();
    match it
    case Chain(n, headers, rules) =>
      HeadWords("chain", n);
      assert "chain " + n + " {" == "chain" + " " + n + " {";
      InnerLeaves(headers);
      InnerLeaves(rules);
      NodesPlus(Leaves(headers), Leaves(rules));
      BraceNode("chain " + n + " {", Leaves(headers) + Leaves(rules));
    case Set(n, decl, elements) =>
      HeadWords("set", n);
      assert "set " + n + " {" == "set" + " " + n + " {";
      InnerLeaves(decl);
      var inner := if elements != [] then [Braced("elements = {", Leaves(Rows(elements)))] else [];
      if elements != [] {
        RowsHold(elements);
        InnerLeaves(Rows(elements));
        BraceNode("elements = {", Leaves(Rows(elements)));
        PrintOne(Braced("elements = {", Leaves(Rows(elements))));
        NodesPlus(Leaves(decl), inner);
      } else {
        assert Leaves(decl) + inner == Leaves(decl);
      }
      BraceNode("set " + n + " {", Leaves(decl) + inner);
    case Block(head, body) =>
      InnerLeaves(body);
      BraceNode(head, Leaves(body));
    case Single(line) => LeafPrints(line);
  }

  lemma LeafPrints(line: string)
    requires Inner(line)
    ensures PrintNode(Leaf(line)) == [line] && NodeOk(Leaf(line))
  {
  }

  lemma {:induction false} AllPrint(items: seq<Item>)
    requires forall it :: it in items ==> Shaped(it)
    ensures PrintAll(items) == PrintNodes(NodesOf(items)) && NodesOk(NodesOf(items))
  {
    hide Shaped, Print, NodeOf, PrintNode, NodeOk;
    if items != [] {
      var n := |items| - 1;
      assert items[n] in items;
      AllPrint(items[..n]);
      NodePrints(items[n]);
      PrintOne(NodeOf(items[n]));
      NodesPlus(NodesOf(items[..n]), [NodeOf(items[n])]);
    }
  }

  lemma LeafFirst(line: string, ns: seq<Node>, headers: bool)
    ensures LeafLines([Leaf(line)] + ns) == [line] + LeafLines(ns) && ElementsOf([Leaf(line)] + ns) == ElementsOf(ns)
    ensures Picked([Leaf(line)] + ns, headers) == if HookLine(line) == headers then [line] + Picked(ns, headers)
        else Picked(ns, headers)
  {
    hide HookLine;
    assert ([Leaf(line)] + ns)[1..] == ns;
  }

  lemma {:induction false} LeavesPick(lines: seq<string>, kids: seq<Node>, headers: bool)
    ensures LeafLines(Leaves(lines) + kids) == lines + LeafLines(kids)
        && ElementsOf(Leaves(lines) + kids) == ElementsOf(kids)
    ensures (forall l :: l in lines ==> HookLine(l) == headers) ==>
              && Picked(Leaves(lines) + kids, headers) == lines + Picked(kids, headers)
              && Picked(Leaves(lines) + kids, !headers) == Picked(kids, !headers)
  {
    hide HookLine, LeafLines, ElementsOf, Picked;
    if lines == [] {
      assert Leaves(lines) + kids == kids;
    } else {
      var rest := Leaves(lines[1..]) + kids;
      assert lines[0] in lines && forall l :: l in lines[1..] ==> l in lines;
      assert lines == [lines[0]] + lines[1..];
      assert Leaves(lines) + kids == [Leaf(lines[0])] + rest;
      LeafFirst(lines[0], rest, headers);
      LeafFirst(lines[0], rest, !headers);
      LeavesPick(lines[1..], kids, headers);
    }
  }

  /** Reading an item's block gives what the item loads. */
  lemma NodeReads(it: Item)
    requires Shaped(it)
    ensures ReadNode(NodeOf(it)) == LiveOf(it)
  {
    hide Leaves, Inner, Rows, EndsWith, Trimmed, TableLine, HookLine, ElementOk, NameOk, FirstWord, SecondWord, Picked,
         LeafLines, ElementsOf, RowItems;
    ChainWord();
    BraceOrdinary();
    NoKids();
    match it
    case Chain(n, headers, rules) =>
      HeadWords("chain", n);
      assert "chain " + n + " {" == "chain" + " " + n + " {";
      LeavesPick(headers, Leaves(rules), true);
      LeavesPick(rules, [], false);
      assert Leaves(rules) + [] == Leaves(rules) && headers + [] == headers && rules + [] == rules;
    case Set(n, decl, elements) =>
      HeadWords("set", n);
      assert "set " + n + " {" == "set" + " " + n + " {";
      if elements != [] {
        var inner := Braced("elements = {", Leaves(Rows(elements)));
        LeavesPick(decl, [inner], true);
        LeavesPick(Rows(elements), [], true);
        assert Leaves(Rows(elements)) + [] == Leaves(Rows(elements)) && Rows(elements) + [] == Rows(elements);
        ElementsKid(inner);
        RowsHold(elements);
        assert decl + [] == decl;
      } else {
        LeavesPick(decl, [], true);
        assert decl + [] == decl;
      }
    case Block(_, _) =>
    case Single(_) =>
  }

  lemma NoKids()
    ensures LeafLines([]) == [] && ElementsOf([]) == [] && Picked([], true) == [] && Picked([], false) == []
  {
  }

  lemma ElementsKid(kid: Node)
    requires kid.Braced? && FirstWord(kid.head) == "elements"
    ensures LeafLines([kid]) == [] && ElementsOf([kid]) == RowItems(LeafLines(kid.kids))
  {
    hide RowItems, FirstWord;
    assert [kid][1..] == [] && LeafLines([]) == [] && ElementsOf([]) == [];
  }

  lemma {:induction false} NodesAre(items: seq<Item>)
    ensures |NodesOf(items)| == |items| && forall k :: 0 <= k < |items| ==> NodesOf(items)[k] == NodeOf(items[k])
  {
    hide NodeOf;
    if items != [] {
      NodesAre(items[..|items| - 1]);
    }
  }

  /** Reading a printed table gives what each item loads. */
  lemma TableReads(table: string, items: seq<Item>)
    requires (forall it :: it in items ==> Shaped(it)) && TableOk(table)
    ensures var r := ReadTable(PrintTable(table, items));
            r.Some? && |r.value| == |items| && forall k :: 0 <= k < |items| ==> r.value[k] == LiveOf(items[k])
  {
    hide Shaped, PrintAll, ReadNodes, PrintNodes, PrintNode, NodesOk, NodeOk, ReadNode, NodeOf, LiveOf, EndsWith,
         TableLine, NodesOf;
    AllPrint(items);
    var kids, top := NodesOf(items), "table " + table + " {";
    var ns := [Leaf("table " + table), Leaf("delete table " + table), Braced(top, kids)];
    TopPrints(table, kids);
    NodesRead(ns, []);
    assert PrintNodes(ns) + [] == PrintTable(table, items);
    NodesAre(items);
    forall k | 0 <= k < |items|
      ensures ReadNode(kids[k]) == LiveOf(items[k])
    {
      assert items[k] in items;
      NodeReads(items[k]);
    }
  }

  lemma TopPrints(table: string, kids: seq<Node>)
    requires TableOk(table) && NodesOk(kids)
    ensures var ns := [Leaf("table " + table), Leaf("delete table " + table), Braced("table " + table + " {", kids)];
            PrintNodes(ns) == Opening(table) + PrintNodes(kids) + ["}"] && NodesOk(ns)
  {
    hide NodesOk, NodeOk, PrintNodes, PrintNode;
    var a, b, c := Leaf("table " + table), Leaf("delete table " + table), Braced("table " + table + " {", kids);
    assert a.line[|a.line| - 1] == table[|table| - 1] && b.line[|b.line| - 1] == table[|table| - 1];
    assert a.line[0] == 't' && b.line[0] == 'd' && c.head[0] == 't' && c.head[|c.head| - 1] == '{';
    PlainLeaf(a.line);
    PlainLeaf(b.line);
    BraceNode(c.head, kids);
    PrintOne(a);
    PrintOne(b);
    PrintOne(c);
    NodesPlus([a], [b]);
    NodesPlus([a] + [b], [c]);
    assert [a, b, c] == [a] + [b] + [c];
  }

  lemma PlainLeaf(line: string)
    requires line != "}" && !EndsWith(line, '{')
    ensures PrintNode(Leaf(line)) == [line] && NodeOk(Leaf(line))
  {
  }

  /** What one statement does to one declaration of the live table. */
  function Apply(st: Stmt, x: Live): Live {
    match st
    case AddRule(chain, rule) => if x.LiveChain? && x.name == chain then x.(rules := x.rules + [rule]) else x
    case AddElements(name, items) => if x.LiveSet? && x.name == name then x.(elements := x.elements + items) else x
  }

  function ApplyAll(ss: seq<Stmt>, x: Live): Live {
    if ss == [] then x else Apply(ss[|ss| - 1], ApplyAll(ss[..|ss| - 1], x))
  }

  /** The rules and elements that a run of statements adds under a name. */
  function RulesTo(ss: seq<Stmt>, name: string): seq<string> {
    if ss == [] then []
    else
      var st := ss[|ss| - 1];
      RulesTo(ss[..|ss| - 1], name) + if st.AddRule? && st.chain == name then [st.rule] else []
  }

  function ElementsTo(ss: seq<Stmt>, name: string): seq<string> {
    if ss == [] then []
    else
      var st := ss[|ss| - 1];
      ElementsTo(ss[..|ss| - 1], name) + if st.AddElements? && st.name == name then st.items else []
  }

  lemma {:induction false} AppliedIs(ss: seq<Stmt>, x: Live)
    ensures ApplyAll(ss, x) ==
            match x
            case LiveChain(n, h, rs) => LiveChain(n, h, rs + RulesTo(ss, n))
            case LiveSet(n, d, es) => LiveSet(n, d, es + ElementsTo(ss, n))
            case LiveOther(_) => x
  {
    if ss != [] {
      AppliedIs(ss[..|ss| - 1], x);
    } else if x.LiveChain? {
      assert x.rules + [] == x.rules;
    } else if x.LiveSet? {
      assert x.elements + [] == x.elements;
    }
  }

  lemma AddedSnoc(ss: seq<Stmt>, st: Stmt, name: string)
    ensures RulesTo(ss + [st], name) == RulesTo(ss, name) + if st.AddRule? && st.chain == name then [st.rule] else []
    ensures ElementsTo(ss + [st], name) == ElementsTo(ss, name) + if st.AddElements?
        && st.name == name then st.items else []
  {
    assert (ss + [st])[..|ss|] == ss;
  }

  lemma NothingAdded(name: string)
    ensures RulesTo([], name) == [] && ElementsTo([], name) == []
  {
  }

  lemma {:induction false} AddedPlus(a: seq<Stmt>, b: seq<Stmt>, name: string)
    ensures RulesTo(a + b, name) == RulesTo(a, name) + RulesTo(b, name)
    ensures ElementsTo(a + b, name) == ElementsTo(a, name) + ElementsTo(b, name)
  {
    hide RulesTo, ElementsTo;
    if b == [] {
      NothingAdded(name);
      assert a + b == a;
    } else {
      var pre, st := b[..|b| - 1], b[|b| - 1];
      assert b == pre + [st] && a + b == a + pre + [st];
      AddedPlus(a, pre, name);
      AddedSnoc(pre, st, name);
      AddedSnoc(a + pre, st, name);
    }
  }

  lemma {:induction false} RuleStmtsAdd(chain: string, rules: seq<string>, name: string)
    ensures RulesTo(RuleStmts(chain, rules), name) == if chain == name then rules else []
    ensures ElementsTo(RuleStmts(chain, rules), name) == []
  {
    hide RulesTo, ElementsTo;
    if rules == [] {
      NothingAdded(name);
    } else {
      var n := |rules| - 1;
      RuleStmtsAdd(chain, rules[..n], name);
      AddedSnoc(RuleStmts(chain, rules[..n]), AddRule(chain, rules[n]), name);
      assert rules == rules[..n] + [rules[n]];
    }
  }

  lemma {:induction false} BatchedAdd(set_: string, batches: seq<seq<string>>, name: string)
    ensures ElementsTo(Batched(set_, batches), name) == if set_ == name then Concat(batches) else []
    ensures RulesTo(Batched(set_, batches), name) == []
  {
    if batches != [] {
      var n := |batches| - 1;
      BatchedAdd(set_, batches[..n], name);
      AddedPlus(Batched(set_, batches[..n]), [AddElements(set_, batches[n])], name);
      assert ElementsTo([AddElements(set_, batches[n])][..0], name) == [];
      assert RulesTo([AddElements(set_, batches[n])][..0], name) == [];
    }
  }

  function Stored(it: Item, collapse: seq<string> -> seq<string>): seq<string> {
    if it.Set? && it.elements != [] then
      if Interval(it.decl) then collapse(it.elements) else it.elements
    else []
  }

  lemma ItemAdds(it: Item, name: string, collapse: seq<string> -> seq<string>)
    ensures RulesTo(ItemRules(it), name) == if it.Chain? && it.name == name then it.rules else []
    ensures RulesTo(ItemElems(it, collapse), name) == [] && ElementsTo(ItemRules(it), name) == []
    ensures ElementsTo(ItemElems(it, collapse), name) == if it.Set? && it.name == name then Stored(it, collapse) else []
  {
    hide Interval, ElementBatches;
    if it.Chain? {
      RuleStmtsAdd(it.name, it.rules, name);
    }
    if it.Set? && it.elements != [] {
      var all := if Interval(it.decl) then collapse(it.elements) else it.elements;
      BatchedAdd(it.name, ElementBatches(all), name);
      ElementsBounded("", it.name, all);
    }
  }

  predicate DistinctNames(items: seq<Item>) {
    forall i, j :: 0 <= i < j < |items| ==>
      && !(items[i].Chain? && items[j].Chain? && items[i].name == items[j].name)
      && !(items[i].Set? && items[j].Set? && items[i].name == items[j].name)
  }

  function Statements(items: seq<Item>, collapse: seq<string> -> seq<string>): seq<Stmt> {
    AllElems(items, collapse) + AllRules(items)
  }

  /** What the statements of the whole table add under one name. */
  lemma {:induction false} AllAdd(items: seq<Item>, name: string, collapse: seq<string> -> seq<string>)
    requires DistinctNames(items)
    ensures RulesTo(AllElems(items, collapse), name) == [] && ElementsTo(AllRules(items), name) == []
    ensures (forall it :: it in items && it.Chain? ==> it.name != name) ==> RulesTo(AllRules(items), name) == []
    ensures forall it :: it in items && it.Chain? && it.name == name ==> RulesTo(AllRules(items), name) == it.rules
    ensures (forall it :: it in items && it.Set? ==> it.name != name) ==>
        ElementsTo(AllElems(items, collapse), name) == []
    ensures forall it :: it in items && it.Set? && it.name == name ==>
              ElementsTo(AllElems(items, collapse), name) == Stored(it, collapse)
  {
    hide ItemRules, ItemElems, Stored;
    if items != [] {
      var n := |items| - 1;
      var last := items[n];
      AllAdd(items[..n], name, collapse);
      ItemAdds(last, name, collapse);
      AddedPlus(AllElems(items[..n], collapse), ItemElems(last, collapse), name);
      AddedPlus(AllRules(items[..n]), ItemRules(last), name);
      assert last in items && forall it :: it in items[..n] ==> it in items;
      forall it | it in items[..n]
        ensures !(it.Chain? && last.Chain? && it.name == last.name) && !(it.Set? && last.Set? && it.name == last.name)
      {
        var i :| 0 <= i < n && items[i] == it;
      }
    }
  }

  predicate Has(covers: (string, nat) -> bool, elements: seq<string>, a: nat) {
    exists e :: e in elements && covers(e, a)
  }

  /** Collapsing may merge elements but covers the same addresses. */
  ghost predicate KeepsUnion(collapse: seq<string> -> seq<string>, covers: (string, nat) -> bool) {
    forall es, a: nat :: Has(covers, collapse(es), a) <==> Has(covers, es, a)
  }

  /** Equal declarations; an interval set may hold other elements over the same addresses. */
  ghost predicate SameLive(covers: (string, nat) -> bool, x: Live, y: Live) {
    if x.LiveSet? && y.LiveSet? && Interval(y.decl) then
      x.name == y.name && x.decl == y.decl
          && forall a: nat :: Has(covers, x.elements, a) <==> Has(covers, y.elements, a)
    else x == y
  }

  lemma RebuildsOne(
      items: seq<Item>, k: nat, collapse: seq<string> -> seq<string>, covers: (string, nat) -> bool)
    requires DistinctNames(items) && k < |items| && KeepsUnion(collapse, covers)
    ensures SameLive(covers, ApplyAll(Statements(items, collapse), LiveOf(Bared(items[k]))), LiveOf(items[k]))
  {
    hide DistinctNames, AllElems, AllRules, Interval, Has;
    var it := items[k];
    assert it in items;
    AppliedIs(Statements(items, collapse), LiveOf(Bared(it)));
    if it.Chain? || it.Set? {
      AllAdd(items, it.name, collapse);
      AddedPlus(AllElems(items, collapse), AllRules(items), it.name);
      if it.Chain? {
        assert [] + ([] + it.rules) == it.rules;
      } else {
        var all := Stored(it, collapse);
        assert [] + (all + []) == all;
        assert forall a: nat :: Has(covers, collapse(it.elements), a) <==> Has(covers, it.elements, a);
      }
    }
  }

  /** Collapsing clean elements gives clean elements. */
  ghost predicate KeepsClean(collapse: seq<string> -> seq<string>) {
    forall es :: (forall e :: e in es ==> ElementOk(e)) ==> forall e :: e in collapse(es) ==> ElementOk(e)
  }

  lemma {:induction false} RuleStmtsOk(chain: string, rules: seq<string>)
    requires NameOk(chain) && forall l :: l in rules ==> Inner(l)
    ensures forall st :: st in RuleStmts(chain, rules) ==> StmtOk(st)
  {
    hide NameOk, Trimmed, TableLine, EndsWith;
    if rules != [] {
      assert rules[|rules| - 1] in rules;
      RuleStmtsOk(chain, rules[..|rules| - 1]);
    }
  }

  lemma {:induction false} BatchedOk(name: string, batches: seq<seq<string>>)
    requires NameOk(name) && forall b :: b in batches ==> b != [] && forall e :: e in b ==> ElementOk(e)
    ensures forall st :: st in Batched(name, batches) ==> StmtOk(st)
  {
    hide NameOk, ElementOk;
    if batches != [] {
      var n := |batches| - 1;
      assert batches[n] in batches;
      forall b | b in batches[..n]
        ensures b != [] && forall e :: e in b ==> ElementOk(e)
      {
        assert b in batches;
      }
      BatchedOk(name, batches[..n]);
    }
  }

  /** Every statement the scan collects can be read back. */
  lemma ItemStmtsOk(it: Item, collapse: seq<string> -> seq<string>)
    requires Shaped(it) && KeepsClean(collapse)
    ensures forall st :: st in ItemElems(it, collapse) + ItemRules(it) ==> StmtOk(st)
  {
    hide NameOk, Inner, HookLine, ElementOk, StmtOk, ElementBatches, Batched, RuleStmts, Interval, Concat;
    if it.Chain? {
      RuleStmtsOk(it.name, it.rules);
    }
    if it.Set? && it.elements != [] {
      var all := if Interval(it.decl) then collapse(it.elements) else it.elements;
      assert forall e :: e in all ==> ElementOk(e);
      ElementsBounded("", it.name, all);
      forall b | b in ElementBatches(all)
        ensures b != [] && forall e :: e in b ==> ElementOk(e)
      {
        InConcat(ElementBatches(all), b);
      }
      BatchedOk(it.name, ElementBatches(all));
    }
  }

  lemma {:induction false} AllStmtsOk(items: seq<Item>, collapse: seq<string> -> seq<string>)
    requires (forall it :: it in items ==> Shaped(it)) && KeepsClean(collapse)
    ensures forall st :: st in AllElems(items, collapse) + AllRules(items) ==> StmtOk(st)
  {
    hide Shaped, KeepsClean, StmtOk, ItemElems, ItemRules;
    if items != [] {
      var n := |items| - 1;
      assert items[n] in items;
      AllStmtsOk(items[..n], collapse);
      ItemStmtsOk(items[n], collapse);
      assert forall st :: st in AllElems(items[..n], collapse) ==>
          st in AllElems(items[..n], collapse) + AllRules(items[..n]);
      assert forall st :: st in AllRules(items[..n]) ==> st in AllElems(items[..n], collapse) + AllRules(items[..n]);
      assert forall st :: st in ItemElems(items[n], collapse) ==>
          st in ItemElems(items[n], collapse) + ItemRules(items[n]);
      assert forall st :: st in ItemRules(items[n]) ==> st in ItemElems(items[n], collapse) + ItemRules(items[n]);
    }
  }

  /** What there is to say of a printed table before it is split. */
  ghost predicate Splittable(
      table: string, items: seq<Item>, raw: seq<string>, collapse: seq<string> -> seq<string>,
      covers: (string, nat) -> bool) {
    && (forall it :: it in items ==> Shaped(it)) && DistinctNames(items) && TableOk(table)
    && Clean(raw) == PrintTable(table, items) && KeepsUnion(collapse, covers) && KeepsClean(collapse)
  }

  /** The texts read back as the bared items and the statements. */
  lemma SplitReads(table: string, items: seq<Item>, raw: seq<string>, collapse: seq<string> -> seq<string>)
    requires (forall it :: it in items ==> Shaped(it)) && TableOk(table) && KeepsClean(collapse)
    requires Clean(raw) == PrintTable(table, items)
    ensures ReadChunks(table, ChunkTextsOf(raw, table, collapse)) == Some(Statements(items, collapse))
    ensures Clean(SkeletonText(raw, table, collapse)) == PrintTable(table, AllBared(items))
  {
    hide Clean, Scanned, Shaped, AllElems, AllRules, PrintTable, TableOk, StmtOk, ReadChunks, ChunkTexts, Texts,
         KeepsClean, AllBared, SkeletonOf;
    var s := Scanned(PrintTable(table, items), Start(table), collapse);
    SplitText(table, items, collapse);
    AllStmtsOk(items, collapse);
    TableBreaks(table);
    ChunksRead(table, s.elems, s.rules);
  }

  lemma TableBreaks(table: string)
    requires TableOk(table)
    ensures '\n' !in table
  {
  }

  lemma {:induction false} BaredShaped(items: seq<Item>)
    requires forall it :: it in items ==> Shaped(it)
    ensures forall it :: it in AllBared(items) ==> Shaped(it)
  {
    hide Inner, HookLine, ElementOk, NameOk, Ordinary;
    if items != [] {
      assert items[|items| - 1] in items;
      BaredShaped(items[..|items| - 1]);
    }
  }

  /** Splitting a printed table loses nothing. The single transaction reads as
      the items load; the skeleton's text reads as the same declarations without
      rules and elements; and applying to them the statements read from the
      chunks' texts, in order, gives what the single transaction gives. */
  lemma Lossless(
      table: string, items: seq<Item>, raw: seq<string>, collapse: seq<string> -> seq<string>,
      covers: (string, nat) -> bool)
    requires Splittable(table, items, raw, collapse, covers)
    ensures var all, skeleton := ReadTable(Clean(raw)), ReadTable(Clean(SkeletonText(raw, table, collapse)));
            var ss := ReadChunks(table, ChunkTextsOf(raw, table, collapse));
            && all.Some? && skeleton.Some? && ss.Some? && |all.value| == |skeleton.value| == |items|
            && forall k :: 0 <= k < |items| ==>
                 && all.value[k] == LiveOf(items[k]) && skeleton.value[k] == LiveOf(Bared(items[k]))
                 && SameLive(covers, ApplyAll(ss.value, skeleton.value[k]), all.value[k])
  {
    hide *;
    SplittableIs(table, items, raw, collapse, covers);
    TableReads(table, items);
    SplitReads(table, items, raw, collapse);
    BaredShaped(items);
    TableReads(table, AllBared(items));
    BaredLength(items);
    forall k | 0 <= k < |items|
      ensures SameLive(covers, ApplyAll(Statements(items, collapse), LiveOf(Bared(items[k]))), LiveOf(items[k]))
    {
      RebuildsOne(items, k, collapse, covers);
    }
  }

  lemma SplittableIs(
      table: string, items: seq<Item>, raw: seq<string>, collapse: seq<string> -> seq<string>,
      covers: (string, nat) -> bool)
    requires Splittable(table, items, raw, collapse, covers)
    ensures (forall it :: it in items ==> Shaped(it)) && DistinctNames(items) && TableOk(table)
    ensures Clean(raw) == PrintTable(table, items) && KeepsUnion(collapse, covers) && KeepsClean(collapse)
  {
  }

  lemma SplitText(table: string, items: seq<Item>, collapse: seq<string> -> seq<string>)
    requires (forall it :: it in items ==> Shaped(it)) && TableOk(table)
    ensures var s := Scanned(PrintTable(table, items), Start(table), collapse);
            && s.elems == AllElems(items, collapse) && s.rules == AllRules(items)
            && Clean(SkeletonOf(s)) == PrintTable(table, AllBared(items))
  {
    hide Clean, Scanned, Shaped, AllSkeleton, AllElems, AllRules, PrintAll, AllBared, TableOk, Opening;
    var s := Scanned(PrintTable(table, items), Start(table), collapse);
    ScanTable(table, items, collapse);
    assert SkeletonOf(s) == Opening(table) + AllSkeleton(items) + ["}"];
    CleanSkeleton(items);
    CleanOpening(table);
    PadsBlank();
    CleanOne("", "}");
    assert "" + "}" == "}";
    CleanPlus(Opening(table) + AllSkeleton(items), ["}"]);
    CleanPlus(Opening(table), AllSkeleton(items));
  }

  /** The chunks' texts add to an interval set its collapsed elements, in order,
      and to any other set its elements as they are; and to a chain its rules. */
  lemma AddedExactly(
      table: string, items: seq<Item>, raw: seq<string>, collapse: seq<string> -> seq<string>,
      covers: (string, nat) -> bool, k: nat)
    requires Splittable(table, items, raw, collapse, covers) && k < |items|
    ensures var ss, it := ReadChunks(table, ChunkTextsOf(raw, table, collapse)), items[k];
      && ss.Some?
      && (it.Set? && it.elements != [] ==>
          ElementsTo(ss.value, it.name) == if Interval(it.decl) then collapse(it.elements) else it.elements)
      && (it.Chain? ==> RulesTo(ss.value, it.name) == it.rules)
  {
    hide *;
    SplittableIs(table, items, raw, collapse, covers);
    SplitReads(table, items, raw, collapse);
    StatementsAdd(items, k, collapse);
  }

  lemma StatementsAdd(items: seq<Item>, k: nat, collapse: seq<string> -> seq<string>)
    requires DistinctNames(items) && k < |items|
    ensures var ss, it := Statements(items, collapse), items[k];
      && (it.Set? && it.elements != [] ==>
          ElementsTo(ss, it.name) == if Interval(it.decl) then collapse(it.elements) else it.elements)
      && (it.Chain? ==> RulesTo(ss, it.name) == it.rules)
  {
    hide DistinctNames, AllElems, AllRules, Interval;
    var it := items[k];
    assert it in items;
    if it.Chain? || it.Set? {
      AllAdd(items, it.name, collapse);
      AddedPlus(AllElems(items, collapse), AllRules(items), it.name);
    }
  }

  // -------------------------------------------------------------- fail closed

  /** A hook's verdict: its first rule that decides, else its policy. Rules
      that jump are given by what they come to. */
  function Accepts(x: Live, says: string -> Option<bool>): bool
    requires x.LiveChain?
  {
    Decided(x.rules, says, !exists h :: h in x.headers && Mentions(h, "policy drop"))
  }

  function Decided(rules: seq<string>, says: string -> Option<bool>, policy: bool): bool {
    if rules == [] then policy
    else if says(rules[0]).Some? then says(rules[0]).value
    else Decided(rules[1..], says, policy)
  }

  function HookHeader(hook: string, prio: string): string {
    "type filter hook " + hook + " priority " + prio + "; " + "policy drop" + ";"
  }

  lemma {:induction false} MentionsInside(a: string, word: string, b: string)
    ensures Mentions(a + word + b, word)
  {
    var s := a + word + b;
    if a == "" {
      assert s == word + b && s[..|word|] == word;
    } else {
      assert s[1..] == a[1..] + word + b;
      MentionsInside(a[1..], word, b);
    }
  }

  lemma {:induction false} HeaderMentions(hook: string, prio: string)
    ensures Mentions(HookHeader(hook, prio), "policy drop")
  {
    hide Mentions;
    var a := "type filter hook " + hook + " priority " + prio + "; ";
    MentionsInside(a, "policy drop", ";");
    assert a + "policy drop" + ";" == HookHeader(hook, prio);
  }

  /** With the skeleton's text alone loaded, the input, output and forward hooks
      are there and accept nothing, whatever the rules would say; with the
      chunks' texts they are the chains of the single transaction. */
  lemma FailsClosed(
      table: string, items: seq<Item>, raw: seq<string>, collapse: seq<string> -> seq<string>,
      covers: (string, nat) -> bool, k: nat, prio: string, says: string -> Option<bool>)
    requires Splittable(table, items, raw, collapse, covers) && k < |items|
    requires items[k].Chain? && items[k].name in ["input", "output", "forward"]
    requires HookHeader(items[k].name, prio) in items[k].headers
    ensures var all, skeleton := ReadTable(Clean(raw)), ReadTable(Clean(SkeletonText(raw, table, collapse)));
            var ss := ReadChunks(table, ChunkTextsOf(raw, table, collapse));
            && all.Some? && skeleton.Some? && ss.Some? && |all.value| == |skeleton.value| == |items|
            && skeleton.value[k] == LiveChain(items[k].name, items[k].headers, []) && !Accepts(skeleton.value[k], says)
            && ApplyAll(ss.value, skeleton.value[k]) == all.value[k]
                == LiveChain(items[k].name, items[k].headers, items[k].rules)
  {
    hide Splittable, ReadTable, ReadChunks, Clean, SkeletonText, ChunkTextsOf, ApplyAll, Mentions, HookHeader;
    Lossless(table, items, raw, collapse, covers);
    HeaderMentions(items[k].name, prio);
  }

  // ------------------------------------------------------------- reading lines

  /** A word is mentioned exactly when it stands somewhere in the line. */
  lemma {:induction false} MentionsExactly(s: string, word: string)
    ensures Mentions(s, word) <==> exists i :: 0 <= i <= |s| - |word| && Stands(s, word, i)
  {
    hide Stands;
    StandsIs(s, word);
    if s != "" {
      var rest := s[1..];
      MentionsExactly(rest, word);
      forall i
        ensures 0 <= i <= |rest| - |word| ==> (Stands(rest, word, i) <==> Stands(s, word, i + 1))
      {
        StandsOn(s, word, i);
      }
      if i :| 0 <= i <= |s| - |word| && Stands(s, word, i) && i > 0 {
        assert Stands(rest, word, i - 1);
      }
    }
  }

  predicate Stands(s: string, word: string, i: int) {
    0 <= i <= |s| - |word| && s[i..i + |word|] == word
  }

  lemma StandsIs(s: string, word: string)
    ensures Stands(s, word, 0) <==> word <= s
  {
  }

  lemma StandsOn(s: string, word: string, i: int)
    requires s != ""
    ensures 0 <= i <= |s[1..]| - |word| ==> (Stands(s[1..], word, i) <==> Stands(s, word, i + 1))
  {
    if 0 <= i <= |s[1..]| - |word| {
      assert s[1..][i..i + |word|] == s[i + 1..i + 1 + |word|];
    }
  }

  /** Indentation, trailing blanks, blank lines and comments make no difference
      to what is split. */
  lemma NoiseDropped(a: seq<string>, pad: string, line: string, tail: string, b: seq<string>)
    requires forall c :: c in pad + tail ==> c == ' ' || c == '\t'
    requires line == "" || Trimmed(line)
    ensures line == "" || line[0] == '#' ==> Clean(a + [pad + line + tail] + b) == Clean(a + b)
    ensures line != "" && line[0] != '#' ==> Clean(a + [pad + line + tail] + b) == Clean(a + [line] + b)
  {
    hide Trim, Trimmed;
    CleanPlus(a + [pad + line + tail], b);
    CleanPlus(a, [pad + line + tail]);
    CleanPlus(a, b);
    CleanPlus(a + [line], b);
    CleanPlus(a, [line]);
    TrimBoth(pad, line, tail);
    TrimBoth("", line, "");
    assert "" + line + "" == line;
    CleanSingle(pad + line + tail);
    CleanSingle(line);
  }

  lemma CleanSingle(raw: string)
    ensures Clean([raw]) == if Noise(Trim(raw)) then [] else [Trim(raw)]
  {
    hide Trim;
    assert [raw][..0] == [] && Clean([raw][..0]) == [];
  }

  lemma TrimBoth(pad: string, line: string, tail: string)
    requires (forall c :: c in pad + tail ==> c == ' ' || c == '\t') && (line == "" || Trimmed(line))
    ensures Trim(pad + line + tail) == line
  {
    assert forall c :: c in pad ==> c in pad + tail;
    assert forall c :: c in tail ==> c in pad + tail;
    if line == "" {
      assert pad + line + tail == pad + tail;
      AllBlank(pad + tail);
    } else {
      assert pad + line + tail == pad + (line + tail);
      LeftPadded(pad, line + tail);
      RightPadded(line, tail);
    }
  }

  lemma {:induction false} AllBlank(s: string)
    requires forall c :: c in s ==> Blank(c)
    ensures StripLeft(s) == "" && Trim(s) == ""
  {
    if s != "" {
      assert s[0] in s;
      AllBlank(s[1..]);
    }
  }

  lemma {:induction false} LeftPadded(pad: string, s: string)
    requires (forall c :: c in pad ==> Blank(c)) && s != "" && !Blank(s[0])
    ensures StripLeft(pad + s) == s
  {
    if pad == "" {
      assert pad + s == s;
    } else {
      assert pad[0] in pad && (pad + s)[1..] == pad[1..] + s;
      LeftPadded(pad[1..], s);
    }
  }

  lemma {:induction false} RightPadded(s: string, tail: string)
    requires (forall c :: c in tail ==> Blank(c)) && s != "" && !Blank(s[|s| - 1])
    ensures StripRight(s + tail) == s
  {
    if tail == "" {
      assert s + tail == s;
    } else {
      var n := |tail| - 1;
      assert tail[n] in tail && (s + tail)[..|s + tail| - 1] == s + tail[..n];
      RightPadded(s, tail[..n]);
    }
  }

  /** A block that opens in the table: chains and maps hold rules for the name
      that follows; any other block is an object of that name. */
  lemma HeadScanned(word: string, name: string, s: Scan, collapse: seq<string> -> seq<string>)
    requires NameOk(word) && NameOk(name) && s.at.AtTable? && word[0] != 't' && word[0] != 'd'
    ensures var line := word + " " + name + " {";
      var n := Next(line, s, collapse);
      && n.skeleton == s.skeleton + [PAD + line]
      && (word in ["chain", "map"] ==> n.at.InChain? && n.chain == name)
      && (word !in ["chain", "map"] ==> n.at.InObject? && n.holder == name && !n.interval)
  {
    var line := word + " " + name + " {";
    assert line == word + [' '] + (name + " {");
    AroundFirst(word, ' ', name + " {");
    assert name + " {" == name + [' '] + "{";
    AroundFirst(name, ' ', "{");
    assert line[0] == word[0] && line[|line| - 1] == '{';
    FramingStarts(line);
    LineKinds();
  }
}
