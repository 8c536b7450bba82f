/** Reading back what the splitter writes: the statements of a chunk's text, and
    the declarations of a table's lines. */
module SplitRead {
  import opened Wrappers
  import opened Chunk
  import opened Split

  // ------------------------------------------------------------ lines of a text

  /** The lines of a text, without their newlines. */
  function Lines(text: string): seq<string>
    decreases |text|
  {
    if text == "" then []
    else [Before(text, '\n')] + if '\n' in text then (AfterShorter(text, '\n'); Lines(After(text, '\n'))) else []
  }

  lemma {:induction false} JoinHead(sep: string, parts: seq<string>)
    requires |parts| > 1
    ensures Join(sep, parts) == parts[0] + sep + Join(sep, parts[1..])
  {
    var n := |parts| - 1;
    if n > 1 {
      assert parts[..n][1..] == parts[1..][..n - 1];
      JoinHead(sep, parts[..n]);
      assert parts[1..][n - 1] == parts[n];
    } else {
      assert parts[..1] == [parts[0]] && parts[1..] == [parts[1]];
    }
  }

  /** Splitting a chunk's text at newlines gives back its statements. */
  lemma {:induction false} ChunkLines(stmts: seq<string>)
    requires stmts != [] && forall s :: s in stmts ==> '\n' !in s
    ensures Lines(ChunkText(stmts)) == stmts
  {
    hide Before, After, Join;
    var s := stmts[0];
    assert s in stmts;
    if |stmts| == 1 {
      assert Join("\n", stmts) == s by { JoinOne("\n", s); assert stmts == [s]; }
      assert ChunkText(stmts) == s + ['\n'] + "";
      AroundFirst(s, '\n', "");
      assert stmts == [s];
    } else {
      JoinHead("\n", stmts);
      assert ChunkText(stmts) == s + ['\n'] + ChunkText(stmts[1..]);
      AroundFirst(s, '\n', ChunkText(stmts[1..]));
      ChunkLines(stmts[1..]);
      assert stmts == [s] + stmts[1..];
    }
  }

  lemma JoinOne(sep: string, s: string)
    ensures Join(sep, [s]) == s
  {
  }

  function AllLines(texts: seq<string>): seq<string> {
    if texts == [] then [] else AllLines(texts[..|texts| - 1]) + Lines(texts[|texts| - 1])
  }

  predicate Printable(stmts: seq<string>) {
    stmts != [] && forall s :: s in stmts ==> '\n' !in s
  }

  lemma {:induction false} ChunksLines(chunks: seq<seq<string>>)
    requires forall c :: c in chunks ==> Printable(c)
    ensures AllLines(ChunkTexts(chunks)) == Concat(chunks)
  {
    hide ChunkText, Lines;
    if chunks != [] {
      var n := |chunks| - 1;
      assert chunks[n] in chunks;
      ChunksLines(chunks[..n]);
      ChunkLines(chunks[n]);
      assert (ChunkTexts(chunks[..n]) + [ChunkText(chunks[n])])[..|ChunkTexts(chunks[..n])|] == ChunkTexts(chunks[..n]);
    }
  }

  // ----------------------------------------------------------------- statements

  /** `chain rule`: the chain's name ends at the first space. */
  function ReadRule(rest: string): Option<Stmt> {
    if ' ' in rest then Some(AddRule(Before(rest, ' '), After(rest, ' '))) else None
  }

  /** `name { items }`. */
  function ReadElements(rest: string): Option<Stmt> {
    var body := After(rest, ' ');
    if ' ' in rest && |body| >= 4 && body[..2] == "{ " && body[|body| - 2..] == " }"
    then Some(AddElements(Before(rest, ' '), Items(body[2..|body| - 2]))) else None
  }

  /** One line of a chunk, as a statement on this table. */
  function ReadStmt(table: string, line: string): Option<Stmt> {
    var rule, element := "add rule " + table + " ", "add element " + table + " ";
    if rule <= line then ReadRule(line[|rule|..])
    else if element <= line then ReadElements(line[|element|..])
    else None
  }

  predicate NameOk(name: string) {
    name != "" && ' ' !in name && '\n' !in name
  }

  /** An address or network as the emitter prints it. */
  predicate ElementOk(e: string) {
    CleanItem(e) && e[0] != '#' && forall c :: c in e ==> c != ' ' && c != '\n' && c != '{' && c != '}'
  }

  predicate StmtOk(st: Stmt) {
    match st
    case AddRule(chain, rule) => NameOk(chain) && '\n' !in rule
    case AddElements(name, items) => NameOk(name) && items != [] && forall e :: e in items ==> ElementOk(e)
  }

  lemma {:induction false} JoinIsRow(items: seq<string>)
    ensures Join(", ", items) == Row(items, false)
  {
    if |items| > 1 {
      JoinHead(", ", items);
      JoinIsRow(items[1..]);
    }
  }

  lemma RuleReads(table: string, chain: string, rule: string)
    requires NameOk(chain)
    ensures ReadStmt(table, Text(table, AddRule(chain, rule))) == Some(AddRule(chain, rule))
  {
    hide Before, After;
    var head, line := "add rule " + table + " ", Text(table, AddRule(chain, rule));
    assert line == head + (chain + [' '] + rule);
    assert line[|head|..] == chain + [' '] + rule;
    AroundFirst(chain, ' ', rule);
  }

  lemma ElementsRead(table: string, name: string, items: seq<string>)
    requires StmtOk(AddElements(name, items))
    ensures ReadStmt(table, Text(table, AddElements(name, items))) == Some(AddElements(name, items))
  {
    hide Before, After, Items, Join, Row, ElementOk;
    var head, line := "add element " + table + " ", Text(table, AddElements(name, items));
    var inner := Join(", ", items);
    var body := "{ " + inner + " }";
    assert line == head + (name + [' '] + body);
    assert line[|head|..] == name + [' '] + body;
    assert line[4] == 'e' && ("add rule " + table + " ")[4] == 'r';
    AroundFirst(name, ' ', body);
    assert body[..2] == "{ " && body[|body| - 2..] == " }" && body[2..|body| - 2] == inner;
    JoinIsRow(items);
    AllClean(items);
    RowsReadBack(items, false);
  }

  lemma AllClean(items: seq<string>)
    requires forall e :: e in items ==> ElementOk(e)
    ensures forall e :: e in items ==> CleanItem(e)
  {
    hide CleanItem;
  }

  /** Reading a written statement gives it back. */
  lemma TextReads(table: string, st: Stmt)
    requires StmtOk(st)
    ensures ReadStmt(table, Text(table, st)) == Some(st)
  {
    hide ReadStmt, Text;
    match st
    case AddRule(chain, rule) => RuleReads(table, chain, rule);
    case AddElements(name, items) => ElementsRead(table, name, items);
  }

  lemma {:induction false} RowNoBreak(items: seq<string>, more: bool)
    requires forall e :: e in items ==> '\n' !in e
    ensures '\n' !in Row(items, more)
  {
    if items != [] {
      assert items[0] in items;
      RowNoBreak(items[1..], more);
    }
  }

  lemma TextNoBreak(table: string, st: Stmt)
    requires StmtOk(st) && '\n' !in table
    ensures '\n' !in Text(table, st)
  {
    hide Join, Row;
    if st.AddElements? {
      JoinIsRow(st.items);
      RowNoBreak(st.items, false);
    }
  }

  function ReadAll(table: string, lines: seq<string>): Option<seq<Stmt>> {
    if lines == [] then Some([])
    else
      var rest, st := ReadAll(table, lines[..|lines| - 1]), ReadStmt(table, lines[|lines| - 1]);
      if rest.Some? && st.Some? then Some(rest.value + [st.value]) else None
  }

  /** The statements of the chunks' texts, in order. */
  function ReadChunks(table: string, texts: seq<string>): Option<seq<Stmt>> {
    ReadAll(table, AllLines(texts))
  }

  lemma {:induction false} TextsRead(table: string, ss: seq<Stmt>)
    requires (forall st :: st in ss ==> StmtOk(st)) && '\n' !in table
    ensures ReadAll(table, Texts(table, ss)) == Some(ss)
    ensures forall t :: t in Texts(table, ss) ==> '\n' !in t
  {
    hide ReadStmt, Text, StmtOk;
    if ss != [] {
      var n := |ss| - 1;
      assert ss[n] in ss;
      TextsRead(table, ss[..n]);
      TextReads(table, ss[n]);
      TextNoBreak(table, ss[n]);
      var ts := Texts(table, ss[..n]);
      assert (ts + [Text(table, ss[n])])[..|ts|] == ts;
      assert ss == ss[..n] + [ss[n]];
    }
  }

  /** Reading the chunks of a list of statements gives the list back. */
  lemma ChunksRead(table: string, elems: seq<Stmt>, rules: seq<Stmt>)
    requires (forall st :: st in elems + rules ==> StmtOk(st)) && '\n' !in table
    ensures ReadChunks(table, ChunkTexts(Chunks(Texts(table, elems)) + Chunks(Texts(table, rules))))
        == Some(elems + rules)
  {
    hide StmtOk, Chunks, Texts, ReadAll, AllLines, ChunkTexts, Concat;
    var es, rs := Texts(table, elems), Texts(table, rules);
    assert forall st :: st in elems ==> st in elems + rules;
    assert forall st :: st in rules ==> st in elems + rules;
    TextsRead(table, elems);
    TextsRead(table, rules);
    TextsRead(table, elems + rules);
    TextsPlus(table, elems, rules);
    ChunksBounded(es);
    ChunksBounded(rs);
    forall c | c in Chunks(es) + Chunks(rs)
      ensures Printable(c)
    {
      if c in Chunks(es) {
        InConcat(Chunks(es), c);
      } else {
        InConcat(Chunks(rs), c);
      }
    }
    ChunksLines(Chunks(es) + Chunks(rs));
    ConcatPlus(Chunks(es), Chunks(rs));
  }

  lemma {:induction false} ConcatPlus(a: seq<seq<string>>, b: seq<seq<string>>)
    ensures Concat(a + b) == Concat(a) + Concat(b)
  {
    if b == [] {
      assert a + b == a;
    } else {
      assert (a + b)[..|a + b| - 1] == a + b[..|b| - 1];
      ConcatPlus(a, b[..|b| - 1]);
    }
  }

  // -------------------------------------------------------------- nested blocks

  /** A line on its own, or a braced block of them. */
  datatype Node = Leaf(line: string) | Braced(head: string, kids: seq<Node>)

  /** The nodes up to the closing brace, or the end, and the lines after it. */
  function ReadNodes(lines: seq<string>): (r: (seq<Node>, seq<string>))
    ensures |r.1| <= |lines|
    decreases |lines|
  {
    if lines == [] then ([], [])
    else if lines[0] == "}" then ([], lines[1..])
    else if EndsWith(lines[0], '{') then
      var (kids, rest) := ReadNodes(lines[1..]);
      var (more, last) := ReadNodes(rest);
      ([Braced(lines[0], kids)] + more, last)
    else
      var (more, last) := ReadNodes(lines[1..]);
      ([Leaf(lines[0])] + more, last)
  }

  function PrintNode(n: Node): seq<string> {
    match n
    case Leaf(line) => [line]
    case Braced(head, kids) => [head] + PrintNodes(kids) + ["}"]
  }

  function PrintNodes(ns: seq<Node>): seq<string> {
    if ns == [] then [] else PrintNode(ns[0]) + PrintNodes(ns[1..])
  }

  predicate NodesOk(ns: seq<Node>) {
    ns == [] || (NodeOk(ns[0]) && NodesOk(ns[1..]))
  }

  predicate NodeOk(n: Node) {
    match n
    case Leaf(line) => line != "}" && !EndsWith(line, '{')
    case Braced(head, kids) => head != "}" && EndsWith(head, '{') && NodesOk(kids)
  }

  lemma ReadLeaf(line: string, rest: seq<string>)
    requires line != "}" && !EndsWith(line, '{')
    ensures ReadNodes([line] + rest) == ([Leaf(line)] + ReadNodes(rest).0, ReadNodes(rest).1)
  {
    assert ([line] + rest)[1..] == rest;
  }

  lemma ReadBraced(head: string, inner: seq<string>)
    requires head != "}" && EndsWith(head, '{')
    ensures var (kids, rest) := ReadNodes(inner);
            ReadNodes([head] + inner) == ([Braced(head, kids)] + ReadNodes(rest).0, ReadNodes(rest).1)
  {
    assert ([head] + inner)[1..] == inner;
  }

  lemma ReadStop(stop: seq<string>)
    requires stop == [] || stop[0] == "}"
    ensures ReadNodes(stop) == ([], if stop == [] then [] else stop[1..])
  {
  }

  lemma NodeIs(n: Node)
    ensures PrintNode(n) == if n.Leaf? then [n.line] else [n.head] + PrintNodes(n.kids) + ["}"]
    ensures NodeOk(n) == if n.Leaf? then n.line != "}" && !EndsWith(n.line, '{')
                         else n.head != "}" && EndsWith(n.head, '{') && NodesOk(n.kids)
  {
  }

  lemma NodesAre(ns: seq<Node>)
    ensures PrintNodes(ns) == if ns == [] then [] else PrintNode(ns[0]) + PrintNodes(ns[1..])
    ensures NodesOk(ns) == (ns == [] || (NodeOk(ns[0]) && NodesOk(ns[1..])))
  {
  }

  /** Printed nodes read back, up to a closing brace or the end of the lines. */
  lemma {:induction false} NodesRead(ns: seq<Node>, stop: seq<string>)
    requires NodesOk(ns) && (stop == [] || stop[0] == "}")
    ensures ReadNodes(PrintNodes(ns) + stop) == (ns, if stop == [] then [] else stop[1..])
    decreases ns
  {
    hide EndsWith, ReadNodes, PrintNode, PrintNodes, NodeOk, NodesOk;
    NodesAre(ns);
    if ns == [] {
      ReadStop(stop);
      assert PrintNodes(ns) + stop == stop;
    } else {
      var n, rest := ns[0], PrintNodes(ns[1..]) + stop;
      NodesRead(ns[1..], stop);
      assert ns == [n] + ns[1..];
      assert PrintNodes(ns) + stop == PrintNode(n) + rest;
      NodeIs(n);
      if n.Leaf? {
        ReadLeaf(n.line, rest);
      } else {
        var inner := PrintNodes(n.kids) + (["}"] + rest);
        NodesRead(n.kids, ["}"] + rest);
        assert (["}"] + rest)[1..] == rest;
        assert PrintNode(n) + rest == [n.head] + inner;
        ReadBraced(n.head, inner);
      }
    }
  }

  function Leaves(lines: seq<string>): seq<Node> {
    if lines == [] then [] else [Leaf(lines[0])] + Leaves(lines[1..])
  }

  lemma {:induction false} LeavesPrint(lines: seq<string>)
    ensures PrintNodes(Leaves(lines)) == lines
    ensures (forall l :: l in lines ==> l != "}" && !EndsWith(l, '{')) ==> NodesOk(Leaves(lines))
  {
    hide EndsWith, PrintNode, PrintNodes, NodeOk, NodesOk;
    NodesAre(Leaves(lines));
    if lines != [] {
      LeavesPrint(lines[1..]);
      NodeIs(Leaf(lines[0]));
      assert lines[0] in lines && forall l :: l in lines[1..] ==> l in lines;
      assert Leaves(lines)[1..] == Leaves(lines[1..]);
      assert lines == [lines[0]] + lines[1..];
    }
  }

  lemma {:induction false} NodesPlus(a: seq<Node>, b: seq<Node>)
    ensures PrintNodes(a + b) == PrintNodes(a) + PrintNodes(b)
    ensures NodesOk(a) && NodesOk(b) ==> NodesOk(a + b)
  {
    hide PrintNode, NodeOk;
    if a == [] {
      assert a + b == b;
    } else {
      assert (a + b)[1..] == a[1..] + b;
      NodesPlus(a[1..], b);
    }
  }

  // ------------------------------------------------------------- the live table

  /** What the kernel holds: a chain, a set, or another declaration. */
  datatype Live =
    | LiveChain(name: string, headers: seq<string>, rules: seq<string>)
    | LiveSet(name: string, decl: seq<string>, elements: seq<string>)
    | LiveOther(node: Node)

  /** A chain's own declarations: its type line and its policy line. */
  predicate HookLine(line: string) {
    (|line| >= 5 && line[..5] == "type ") || (|line| >= 7 && line[..7] == "policy ")
  }

  /** A line that declares, deletes or opens a table. */
  predicate TableLine(line: string) {
    (|line| >= 6 && line[..6] == "table ") || (|line| >= 12 && line[..12] == "delete table")
  }

  lemma LineKinds()
    ensures forall line :: (IsHeader(line) <==> HookLine(line)) && (Framing(line) <==> TableLine(line))
  {
  }

  /** The lines of a block that are headers, or that are not. */
  function Picked(kids: seq<Node>, headers: bool): seq<string> {
    if kids == [] then []
    else
      var picked := kids[0].Leaf? && HookLine(kids[0].line) == headers;
      (if picked then [kids[0].line] else []) + Picked(kids[1..], headers)
  }

  function LeafLines(kids: seq<Node>): seq<string> {
    if kids == [] then [] else (if kids[0].Leaf? then [kids[0].line] else []) + LeafLines(kids[1..])
  }

  function RowItems(rows: seq<string>): seq<string> {
    if rows == [] then [] else Items(rows[0]) + RowItems(rows[1..])
  }

  function ElementsOf(kids: seq<Node>): seq<string> {
    if kids == [] then []
    else (if kids[0].Braced? && FirstWord(kids[0].head) == "elements" then RowItems(LeafLines(kids[0].kids)) else [])
         + ElementsOf(kids[1..])
  }

  function ReadNode(n: Node): Live {
    if n.Braced? && FirstWord(n.head) == "chain" then
      LiveChain(SecondWord(n.head), Picked(n.kids, true), Picked(n.kids, false))
    else if n.Braced? && FirstWord(n.head) == "set"
        then LiveSet(SecondWord(n.head), LeafLines(n.kids), ElementsOf(n.kids))
    else LiveOther(n)
  }

  function ReadEach(ns: seq<Node>): (r: seq<Live>)
    ensures |r| == |ns| && forall k :: 0 <= k < |ns| ==> r[k] == ReadNode(ns[k])
  {
    seq(|ns|, k requires 0 <= k < |ns| => ReadNode(ns[k]))
  }

  /** One transaction: declare the table, delete it, and fill it. */
  function ReadTable(lines: seq<string>): Option<seq<Live>> {
    var (ns, rest) := ReadNodes(lines);
    if rest == [] && |ns| == 3 && ns[0].Leaf? && ns[1].Leaf? && ns[2].Braced? then Some(ReadEach(ns[2].kids)) else None
  }
}
