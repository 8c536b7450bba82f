/** The configuration reader: continuation lines, and the conditional
    directives as a stack machine and as a block tree. */
module Reader {
  import opened Wrappers

  // --------------------------------------------------------------- tokens

  /** A logical line, comments stripped, its condition already evaluated. */
  datatype Item =
    | If(cond: bool) | Elsif(cond: bool) | Else | Endif
    | Section(name: string) | Format(number: Option<int>) | Comment | Unknown | Text(text: string)

  datatype Tok = Tok(line: nat, item: Item)

  datatype Line = Line(line: nat, text: string, section: Option<string>, fmt: int)

  datatype Error =
    | ElsifWithoutIf(line: nat) | ElseWithoutIf(line: nat) | EndifWithoutIf(line: nat) | IfWithoutEndif
    | BadFormat(line: nat) | BadDirective(line: nat)

  predicate Plain(t: Tok) {
    !t.item.If? && !t.item.Elsif? && !t.item.Else? && !t.item.Endif?
  }

  // --------------------------------------------------------- the stack machine

  /** Whether the current branch is live, and whether any branch has been. */
  datatype Frame = Frame(cond: bool, taken: bool)

  datatype Ctx = Ctx(section: Option<string>, fmt: int, out: seq<Line>)

  datatype State = State(stack: seq<Frame>, ctx: Ctx)

  predicate Live(stack: seq<Frame>) {
    forall f :: f in stack ==> f.cond
  }

  /** What a live line does. */
  function Obey(t: Tok, maxFormat: int, c: Ctx): Result<Ctx, Error>
    requires Plain(t)
  {
    match t.item
    case Section(name) => Ok(c.(section := Some(name)))
    case Format(n) => if n.Some? && 1 <= n.value <= maxFormat then Ok(c.(fmt := n.value)) else Err(BadFormat(t.line))
    case Comment => Ok(c)
    case Unknown => Err(BadDirective(t.line))
    case Text(text) => Ok(c.(out := c.out + [Line(t.line, text, c.section, c.fmt)]))
  }

  function Step(t: Tok, maxFormat: int, s: State): Result<State, Error> {
    var n := |s.stack| - 1;
    match t.item
    case If(cond) =>
      var now := Live(s.stack) && cond;
      Ok(s.(stack := s.stack + [Frame(now, now)]))
    case Elsif(cond) =>
      if s.stack == [] then Err(ElsifWithoutIf(t.line))
      else
        var now := Live(s.stack[..n]) && !s.stack[n].taken && cond;
        Ok(s.(stack := s.stack[..n] + [Frame(now, s.stack[n].taken || now)]))
    case Else =>
      if s.stack == [] then Err(ElseWithoutIf(t.line))
      else Ok(s.(stack := s.stack[..n] + [Frame(Live(s.stack[..n]) && !s.stack[n].taken, true)]))
    case Endif => if s.stack == [] then Err(EndifWithoutIf(t.line)) else Ok(s.(stack := s.stack[..n]))
    case _ =>
      if !Live(s.stack) then Ok(s)
      else
        match Obey(t, maxFormat, s.ctx)
        case Err(x) => Err(x)
        case Ok(c) => Ok(s.(ctx := c))
  }

  function Run(ts: seq<Tok>, maxFormat: int, s: State): Result<State, Error> {
    if ts == [] then Ok(s)
    else
      match Run(ts[..|ts| - 1], maxFormat, s)
      case Err(x) => Err(x)
      case Ok(mid) => Step(ts[|ts| - 1], maxFormat, mid)
  }

  const START := State([], Ctx(None, 1, []))

  function Reading(ts: seq<Tok>, maxFormat: int): Result<seq<Line>, Error> {
    match Run(ts, maxFormat, START)
    case Err(x) => Err(x)
    case Ok(s) => if s.stack != [] then Err(IfWithoutEndif) else Ok(s.ctx.out)
  }

  lemma {:induction false} RunPlus(a: seq<Tok>, b: seq<Tok>, maxFormat: int, s: State)
    ensures Run(a + b, maxFormat, s) ==
            match Run(a, maxFormat, s)
            case Err(x) => Err(x)
            case Ok(mid) => Run(b, maxFormat, mid)
  {
    hide Step;
    if b == [] {
      assert a + b == a;
    } else {
      assert (a + b)[..|a + b| - 1] == a + b[..|b| - 1];
      RunPlus(a, b[..|b| - 1], maxFormat, s);
    }
  }

  lemma RunOne(t: Tok, maxFormat: int, s: State)
    ensures Run([t], maxFormat, s) == Step(t, maxFormat, s)
  {
    hide Step;
    assert [t][..0] == [] && Run([t][..0], maxFormat, s) == Ok(s);
  }

  /** One more token, or the error that ends the reading. */
  lemma RunNext(ts: seq<Tok>, i: nat, maxFormat: int, s: State)
    requires i < |ts| && Run(ts[..i], maxFormat, START) == Ok(s)
    ensures match Step(ts[i], maxFormat, s)
            case Ok(next) => Run(ts[..i + 1], maxFormat, START) == Ok(next)
            case Err(x) => Reading(ts, maxFormat) == Err(x)
  {
    hide Run, Step;
    RunPlus(ts[..i], [ts[i]], maxFormat, START);
    RunOne(ts[i], maxFormat, s);
    RunPlus(ts[..i + 1], ts[i + 1..], maxFormat, START);
    assert ts[..i] + [ts[i]] == ts[..i + 1] && ts[..i + 1] + ts[i + 1..] == ts;
  }

  /** `?IF`, `?ELSIF`, `?ELSE` and `?ENDIF`, the top frame changed in place. */
  method Conditional(t: Tok, frames: seq<Frame>, ghost maxFormat: int, ghost c: Ctx)
    returns (r: Result<seq<Frame>, Error>)
    requires !Plain(t)
    ensures Step(t, maxFormat, State(frames, c)) ==
            match r
            case Err(x) => Err(x)
            case Ok(stack) => Ok(State(stack, c))
  {
    hide Live, Obey;
    var stack, top := frames, |frames| - 1;
    match t.item {
      case If(cond) =>
        var now := Live(stack) && cond;
        stack := stack + [Frame(now, now)];
      case Elsif(cond) =>
        if stack == [] {
          return Err(ElsifWithoutIf(t.line));
        }
        var now := Live(stack[..top]) && !stack[top].taken && cond;
        stack := stack[top := Frame(now, stack[top].taken || now)];
        assert stack == frames[..top] + [stack[top]];
      case Else =>
        if stack == [] {
          return Err(ElseWithoutIf(t.line));
        }
        stack := stack[top := Frame(Live(stack[..top]) && !stack[top].taken, true)];
        assert stack == frames[..top] + [stack[top]];
      case Endif =>
        if stack == [] {
          return Err(EndifWithoutIf(t.line));
        }
        stack := stack[..top];
    }
    return Ok(stack);
  }

  /** The reader's loop. */
  method ReadFile(ts: seq<Tok>, maxFormat: int) returns (r: Result<seq<Line>, Error>)
    ensures r == Reading(ts, maxFormat)
  {
    var section: Option<string> := None;
    var fmt := 1;
    var stack: seq<Frame> := [];
    var out: seq<Line> := [];
    for i := 0 to |ts|
      invariant Run(ts[..i], maxFormat, START) == Ok(State(stack, Ctx(section, fmt, out)))
    {
      hide Run, Live, Reading, Step, Plain;
      ghost var c := Ctx(section, fmt, out);
      RunNext(ts, i, maxFormat, State(stack, c));
      var t := ts[i];
      if !Plain(t) {
        var next := Conditional(t, stack, maxFormat, c);
        if next.Err? {
          return Err(next.error);
        }
        stack := next.value;
        continue;
      }
      PlainSteps(t, maxFormat, State(stack, c));
      if !Live(stack) {
        continue;
      }
      match t.item {
        case Section(name) =>
          section := Some(name);
        case Format(n) =>
          if n.None? || !(1 <= n.value <= maxFormat) {
            return Err(BadFormat(t.line));
          }
          fmt := n.value;
        case Comment =>
        case Unknown =>
          return Err(BadDirective(t.line));
        case Text(text) =>
          out := out + [Line(t.line, text, section, fmt)];
        case _ =>
          assert false by { PlainIsPlain(t); }
      }
    }
    assert ts[..|ts|] == ts;
    return if stack != [] then Err(IfWithoutEndif) else Ok(out);
  }

  lemma PlainIsPlain(t: Tok)
    ensures Plain(t) <==> !t.item.If? && !t.item.Elsif? && !t.item.Else? && !t.item.Endif?
  {
  }

  lemma PlainSteps(t: Tok, maxFormat: int, s: State)
    requires Plain(t)
    ensures Step(t, maxFormat, s) ==
            if !Live(s.stack) then Ok(s)
            else
              match Obey(t, maxFormat, s.ctx)
              case Err(x) => Err(x)
              case Ok(c) => Ok(s.(ctx := c))
  {
    hide Live, Obey;
  }

  // ------------------------------------------------------------- the block tree

  /** A later branch: `?ELSIF` with its condition, or `?ELSE`. */
  datatype Branch = Branch(line: nat, test: Option<bool>, body: seq<Block>)

  datatype Block =
    | Just(tok: Tok)
    | Cond(line: nat, cond: bool, body: seq<Block>, rest: seq<Branch>, end: nat)

  function HeadTok(b: Branch): Tok {
    Tok(b.line, if b.test.Some? then Elsif(b.test.value) else Else)
  }

  function FlattenBlock(b: Block): seq<Tok> {
    match b
    case Just(t) => [t]
    case Cond(line, c, body, rest, end) =>
      [Tok(line, If(c))] + Flatten(body) + (FlattenRest(rest) + [Tok(end, Endif)])
  }

  function Flatten(bs: seq<Block>): seq<Tok> {
    if bs == [] then [] else FlattenBlock(bs[0]) + Flatten(bs[1..])
  }

  function FlattenRest(rest: seq<Branch>): seq<Tok> {
    if rest == [] then []
    else [HeadTok(rest[0])] + Flatten(rest[0].body) + FlattenRest(rest[1..])
  }

  /** Every leaf is a plain line. */
  predicate WellFormed(bs: seq<Block>) {
    bs == [] || (WellFormedBlock(bs[0]) && WellFormed(bs[1..]))
  }

  predicate WellFormedBlock(b: Block) {
    match b
    case Just(t) => Plain(t)
    case Cond(_, _, body, rest, _) => WellFormed(body) && WellFormedRest(rest)
  }

  predicate WellFormedRest(rest: seq<Branch>) {
    rest == [] || (WellFormed(rest[0].body) && WellFormedRest(rest[1..]))
  }

  /** The plain lines the tree selects: one branch at most of each conditional,
      the first whose test holds, `?ELSE` always holding. */
  function Select(bs: seq<Block>): seq<Tok> {
    if bs == [] then [] else SelectBlock(bs[0]) + Select(bs[1..])
  }

  function SelectBlock(b: Block): seq<Tok> {
    match b
    case Just(t) => [t]
    case Cond(_, c, body, rest, _) => if c then Select(body) else SelectRest(rest)
  }

  function SelectRest(rest: seq<Branch>): seq<Tok> {
    if rest == [] then []
    else if rest[0].test != Some(false) then Select(rest[0].body)
    else SelectRest(rest[1..])
  }

  /** Plain lines one after another. */
  function Straight(ts: seq<Tok>, maxFormat: int, c: Ctx): Result<Ctx, Error>
    requires forall t :: t in ts ==> Plain(t)
  {
    if ts == [] then Ok(c)
    else
      match Straight(ts[..|ts| - 1], maxFormat, c)
      case Err(x) => Err(x)
      case Ok(mid) => Obey(ts[|ts| - 1], maxFormat, mid)
  }

  lemma {:induction false} StraightPlus(a: seq<Tok>, b: seq<Tok>, maxFormat: int, c: Ctx)
    requires (forall t :: t in a ==> Plain(t)) && (forall t :: t in b ==> Plain(t))
    ensures Straight(a + b, maxFormat, c) ==
            match Straight(a, maxFormat, c)
            case Err(x) => Err(x)
            case Ok(mid) => Straight(b, maxFormat, mid)
  {
    hide Obey, Plain;
    if b == [] {
      assert a + b == a;
    } else {
      assert (a + b)[..|a + b| - 1] == a + b[..|b| - 1];
      StraightPlus(a, b[..|b| - 1], maxFormat, c);
    }
  }

  lemma {:induction false} SelectPlain(bs: seq<Block>)
    requires WellFormed(bs)
    ensures forall t :: t in Select(bs) ==> Plain(t)
  {
    hide Plain;
    if bs != [] {
      SelectBlockPlain(bs[0]);
      SelectPlain(bs[1..]);
    }
  }

  lemma {:induction false} SelectBlockPlain(b: Block)
    requires WellFormedBlock(b)
    ensures forall t :: t in SelectBlock(b) ==> Plain(t)
  {
    hide Plain;
    if b.Cond? {
      SelectPlain(b.body);
      SelectRestPlain(b.rest);
    }
  }

  lemma {:induction false} SelectRestPlain(rest: seq<Branch>)
    requires WellFormedRest(rest)
    ensures forall t :: t in SelectRest(rest) ==> Plain(t)
  {
    hide Plain;
    if rest != [] {
      SelectPlain(rest[0].body);
      SelectRestPlain(rest[1..]);
    }
  }

  // ----------------------------------------------------- machine equals tree

  /** A run whose lines came out as these, on an unchanged stack. */
  function Lift(c: Result<Ctx, Error>, stack: seq<Frame>): Result<State, Error> {
    match c
    case Err(x) => Err(x)
    case Ok(ctx) => Ok(State(stack, ctx))
  }

  predicate Dead(s: State) {
    !Live(s.stack)
  }

  lemma LivePush(stack: seq<Frame>, f: Frame)
    ensures Live(stack + [f]) <==> Live(stack) && f.cond
  {
    assert forall g :: g in stack + [f] <==> g in stack || g == f;
  }

  lemma {:induction false} RunDead(bs: seq<Block>, maxFormat: int, s: State)
    requires WellFormed(bs) && Dead(s)
    ensures Run(Flatten(bs), maxFormat, s) == Ok(s)
  {
    hide Step, Live;
    if bs != [] {
      RunPlus(FlattenBlock(bs[0]), Flatten(bs[1..]), maxFormat, s);
      RunDeadBlock(bs[0], maxFormat, s);
      RunDead(bs[1..], maxFormat, s);
    }
  }

  lemma {:induction false} RunDeadBlock(b: Block, maxFormat: int, s: State)
    requires WellFormedBlock(b) && Dead(s)
    ensures Run(FlattenBlock(b), maxFormat, s) == Ok(s)
  {
    hide Live, Run, Flatten, FlattenRest;
    match b
    case Just(t) => RunOne(t, maxFormat, s);
    case Cond(line, c, body, rest, end) =>
      var t, ts := Tok(line, If(c)), FlattenRest(rest) + [Tok(end, Endif)];
      var s1 := s.(stack := s.stack + [Frame(false, false)]);
      RunPlus([t] + Flatten(body), ts, maxFormat, s);
      RunPlus([t], Flatten(body), maxFormat, s);
      RunOne(t, maxFormat, s);
      LivePush(s.stack, Frame(false, false));
      RunDead(body, maxFormat, s1);
      RunSkipped(rest, end, maxFormat, s1);
      assert s1.stack[..|s1.stack| - 1] == s.stack;
  }

  /** Once a branch was taken, or inside a dead region, no later branch is live. */
  lemma {:induction false} RunSkipped(rest: seq<Branch>, end: nat, maxFormat: int, s: State)
    requires WellFormedRest(rest) && s.stack != []
    requires s.stack[|s.stack| - 1].taken || !Live(s.stack[..|s.stack| - 1])
    ensures Run(FlattenRest(rest) + [Tok(end, Endif)], maxFormat, s) == Ok(s.(stack := s.stack[..|s.stack| - 1]))
  {
    hide Live, Run, Flatten;
    var e := Tok(end, Endif);
    if rest == [] {
      assert FlattenRest(rest) + [e] == [e];
      RunOne(e, maxFormat, s);
    } else {
      var n := |s.stack| - 1;
      var h, tail := HeadTok(rest[0]), FlattenRest(rest[1..]) + [e];
      assert FlattenRest(rest) + [e] == [h] + Flatten(rest[0].body) + tail;
      RunPlus([h] + Flatten(rest[0].body), tail, maxFormat, s);
      RunPlus([h], Flatten(rest[0].body), maxFormat, s);
      RunOne(h, maxFormat, s);
      var f := Frame(false, if rest[0].test.Some? then s.stack[n].taken else true);
      var s1 := s.(stack := s.stack[..n] + [f]);
      LivePush(s.stack[..n], f);
      RunDead(rest[0].body, maxFormat, s1);
      RunSkipped(rest[1..], end, maxFormat, s1);
      assert s1.stack[..n] == s.stack[..n];
    }
  }

  lemma {:induction false} RunLive(bs: seq<Block>, maxFormat: int, s: State)
    requires WellFormed(bs) && Live(s.stack)
    ensures forall t :: t in Select(bs) ==> Plain(t)
    ensures Run(Flatten(bs), maxFormat, s) == Lift(Straight(Select(bs), maxFormat, s.ctx), s.stack)
  {
    hide Live, Plain, Run, Straight, SelectBlock, FlattenBlock;
    SelectPlain(bs);
    if bs == [] {
      RunNone(maxFormat, s);
    } else {
      RunPlus(FlattenBlock(bs[0]), Flatten(bs[1..]), maxFormat, s);
      RunLiveBlock(bs[0], maxFormat, s);
      SelectPlain(bs[1..]);
      StraightPlus(SelectBlock(bs[0]), Select(bs[1..]), maxFormat, s.ctx);
      var mid := Straight(SelectBlock(bs[0]), maxFormat, s.ctx);
      if mid.Ok? {
        RunLive(bs[1..], maxFormat, s.(ctx := mid.value));
      }
    }
  }

  lemma RunNone(maxFormat: int, s: State)
    ensures Run([], maxFormat, s) == Ok(s) && Straight([], maxFormat, s.ctx) == Ok(s.ctx)
  {
  }

  lemma {:induction false} RunLiveBlock(b: Block, maxFormat: int, s: State)
    requires WellFormedBlock(b) && Live(s.stack)
    ensures forall t :: t in SelectBlock(b) ==> Plain(t)
    ensures Run(FlattenBlock(b), maxFormat, s) == Lift(Straight(SelectBlock(b), maxFormat, s.ctx), s.stack)
  {
    hide Live, Run, Flatten, FlattenRest, Straight, Select, SelectRest, Plain;
    SelectBlockPlain(b);
    match b
    case Just(t) => RunOne(t, maxFormat, s); StraightOne(t, maxFormat, s.ctx); PlainStep(t, maxFormat, s);
    case Cond(line, c, body, rest, end) =>
      var t, ts := Tok(line, If(c)), FlattenRest(rest) + [Tok(end, Endif)];
      var s1 := s.(stack := s.stack + [Frame(c, c)]);
      RunPlus([t] + Flatten(body), ts, maxFormat, s);
      RunPlus([t], Flatten(body), maxFormat, s);
      RunOne(t, maxFormat, s);
      LivePush(s.stack, Frame(c, c));
      assert s1.stack[..|s1.stack| - 1] == s.stack;
      if c {
        RunLive(body, maxFormat, s1);
        var mid := Straight(Select(body), maxFormat, s.ctx);
        if mid.Ok? {
          RunSkipped(rest, end, maxFormat, s1.(ctx := mid.value));
        }
      } else {
        RunDead(body, maxFormat, s1);
        RunRest(rest, end, maxFormat, s1);
      }
  }

  lemma StraightOne(t: Tok, maxFormat: int, c: Ctx)
    requires Plain(t)
    ensures Straight([t], maxFormat, c) == Obey(t, maxFormat, c)
  {
    hide Obey;
    assert [t][..0] == [] && Straight([t][..0], maxFormat, c) == Ok(c);
  }

  lemma PlainStep(t: Tok, maxFormat: int, s: State)
    requires Plain(t) && Live(s.stack)
    ensures Step(t, maxFormat, s) == Lift(Obey(t, maxFormat, s.ctx), s.stack)
  {
    hide Live, Obey;
  }

  /** With no branch taken yet, the first whose test holds is the one read. */
  lemma {:induction false} RunRest(rest: seq<Branch>, end: nat, maxFormat: int, s: State)
    requires WellFormedRest(rest) && s.stack != [] && !s.stack[|s.stack| - 1].taken && Live(s.stack[..|s.stack| - 1])
    ensures forall t :: t in SelectRest(rest) ==> Plain(t)
    ensures Run(FlattenRest(rest) + [Tok(end, Endif)], maxFormat, s) ==
            Lift(Straight(SelectRest(rest), maxFormat, s.ctx), s.stack[..|s.stack| - 1])
  {
    hide Live, Run, Flatten, Straight, Select, Plain;
    SelectRestPlain(rest);
    var e := Tok(end, Endif);
    if rest == [] {
      assert FlattenRest(rest) + [e] == [e];
      RunOne(e, maxFormat, s);
      RunNone(maxFormat, s);
    } else {
      var n := |s.stack| - 1;
      var h, tail := HeadTok(rest[0]), FlattenRest(rest[1..]) + [e];
      assert FlattenRest(rest) + [e] == [h] + Flatten(rest[0].body) + tail;
      RunPlus([h] + Flatten(rest[0].body), tail, maxFormat, s);
      RunPlus([h], Flatten(rest[0].body), maxFormat, s);
      RunOne(h, maxFormat, s);
      var holds := rest[0].test != Some(false);
      var f := Frame(holds, holds);
      var s1 := s.(stack := s.stack[..n] + [f]);
      LivePush(s.stack[..n], f);
      assert s1.stack[..n] == s.stack[..n];
      if holds {
        RunLive(rest[0].body, maxFormat, s1);
        var mid := Straight(Select(rest[0].body), maxFormat, s.ctx);
        if mid.Ok? {
          RunSkipped(rest[1..], end, maxFormat, s1.(ctx := mid.value));
        }
      } else {
        RunDead(rest[0].body, maxFormat, s1);
        RunRest(rest[1..], end, maxFormat, s1);
      }
    }
  }

  function Lines(c: Result<Ctx, Error>): Result<seq<Line>, Error> {
    match c
    case Err(x) => Err(x)
    case Ok(ctx) => Ok(ctx.out)
  }

  /** The stack machine reads a well-nested file as the block tree says. */
  lemma MachineIsTree(bs: seq<Block>, maxFormat: int)
    requires WellFormed(bs)
    ensures forall t :: t in Select(bs) ==> Plain(t)
    ensures Reading(Flatten(bs), maxFormat) == Lines(Straight(Select(bs), maxFormat, START.ctx))
  {
    hide Run, Straight, Plain, Flatten, Select;
    RunLive(bs, maxFormat, START);
  }

  // ---------------------------------------------------------- nesting, exactly

  /** How many `?IF`s are open, none once a directive has nothing to close. */
  function Depth(ts: seq<Tok>): Option<nat> {
    if ts == [] then Some(0)
    else
      match Depth(ts[..|ts| - 1])
      case None => None
      case Some(d) =>
        match ts[|ts| - 1].item
        case If(_) => Some(d + 1)
        case Elsif(_) => if d == 0 then None else Some(d)
        case Else => if d == 0 then None else Some(d)
        case Endif => if d == 0 then None else Some(d - 1)
        case _ => Some(d)
  }

  predicate WellNested(ts: seq<Tok>) {
    Depth(ts) == Some(0)
  }

  lemma {:induction false} RunDepth(ts: seq<Tok>, maxFormat: int)
    ensures Run(ts, maxFormat, START).Ok? ==> Depth(ts) == Some(|Run(ts, maxFormat, START).value.stack|)
  {
    hide Live, Obey;
    if ts != [] {
      RunDepth(ts[..|ts| - 1], maxFormat);
    }
  }

  /** An unmatched `?ELSIF`, `?ELSE` or `?ENDIF`, or an unclosed `?IF`, is always an error. */
  lemma IllNestedFails(ts: seq<Tok>, maxFormat: int)
    requires !WellNested(ts)
    ensures Reading(ts, maxFormat).Err?
  {
    hide Run, Depth;
    RunDepth(ts, maxFormat);
  }

  /** A conditional still open: its `?IF`, what was read before it, and the
      branches already closed. */
  datatype Open =
    | InIf(before: seq<Block>, line: nat, cond: bool)
    | InRest(before: seq<Block>, line: nat, cond: bool, body: seq<Block>, rest: seq<Branch>, head: Branch)

  function FlattenOpen(o: Open): seq<Tok> {
    match o
    case InIf(before, line, c) => Flatten(before) + [Tok(line, If(c))]
    case InRest(before, line, c, body, rest, head) =>
      Flatten(before) + [Tok(line, If(c))] + Flatten(body) + FlattenRest(rest) + [HeadTok(head)]
  }

  function FlattenOpens(os: seq<Open>): seq<Tok> {
    if os == [] then [] else FlattenOpens(os[..|os| - 1]) + FlattenOpen(os[|os| - 1])
  }

  predicate WellFormedOpen(o: Open) {
    WellFormed(o.before) && (o.InRest? ==> WellFormed(o.body) && WellFormedRest(o.rest))
  }

  lemma {:induction false} FlattenSnoc(bs: seq<Block>, b: Block)
    ensures Flatten(bs + [b]) == Flatten(bs) + FlattenBlock(b)
    ensures WellFormed(bs) && WellFormedBlock(b) ==> WellFormed(bs + [b])
  {
    hide FlattenBlock, WellFormedBlock;
    if bs == [] {
      assert bs + [b] == [b] && [b][1..] == [];
    } else {
      assert (bs + [b])[1..] == bs[1..] + [b];
      FlattenSnoc(bs[1..], b);
    }
  }

  lemma {:induction false} FlattenRestSnoc(rest: seq<Branch>, b: Branch)
    ensures FlattenRest(rest + [b]) == FlattenRest(rest) + [HeadTok(b)] + Flatten(b.body)
    ensures WellFormedRest(rest) && WellFormed(b.body) ==> WellFormedRest(rest + [b])
  {
    hide Flatten, HeadTok, WellFormed;
    if rest == [] {
      assert rest + [b] == [b] && [b][1..] == [];
    } else {
      assert (rest + [b])[1..] == rest[1..] + [b];
      FlattenRestSnoc(rest[1..], b);
    }
  }

  /** Close the branch being read and open the next. */
  function Turn(o: Open, cur: seq<Block>, head: Branch): Open {
    match o
    case InIf(before, line, c) => InRest(before, line, c, cur, [], head)
    case InRest(before, line, c, body, rest, h) => InRest(before, line, c, body, rest + [h.(body := cur)], head)
  }

  function Close(o: Open, cur: seq<Block>, end: nat): Block {
    match o
    case InIf(before, line, c) => Cond(line, c, cur, [], end)
    case InRest(before, line, c, body, rest, h) => Cond(line, c, body, rest + [h.(body := cur)], end)
  }

  lemma TurnFlattens(o: Open, cur: seq<Block>, head: Branch)
    requires WellFormedOpen(o) && WellFormed(cur)
    ensures FlattenOpen(Turn(o, cur, head)) == FlattenOpen(o) + Flatten(cur) + [HeadTok(head)]
    ensures WellFormedOpen(Turn(o, cur, head))
  {
    hide Flatten, FlattenRest, WellFormed, WellFormedRest;
    NoRest();
    match o
    case InIf(before, line, c) =>
      var pre := Flatten(before) + [Tok(line, If(c))] + Flatten(cur);
      assert pre + [] + [HeadTok(head)] == pre + [HeadTok(head)];
    case InRest(before, line, c, body, rest, h) =>
      var last := h.(body := cur);
      FlattenRestSnoc(rest, last);
      var pre := Flatten(before) + [Tok(line, If(c))] + Flatten(body);
      assert FlattenRest(rest + [last]) == FlattenRest(rest) + [HeadTok(h)] + Flatten(cur);
      assert pre + (FlattenRest(rest) + [HeadTok(h)] + Flatten(cur)) + [HeadTok(head)]
          == pre + FlattenRest(rest) + [HeadTok(h)] + Flatten(cur) + [HeadTok(head)];
  }

  lemma CondFlattens(line: nat, c: bool, body: seq<Block>, rest: seq<Branch>, end: nat)
    ensures FlattenBlock(Cond(line, c, body, rest, end)) ==
            [Tok(line, If(c))] + Flatten(body) + (FlattenRest(rest) + [Tok(end, Endif)])
    ensures WellFormed(body) && WellFormedRest(rest) ==> WellFormedBlock(Cond(line, c, body, rest, end))
  {
    hide Flatten, FlattenRest, WellFormed, WellFormedRest;
  }

  lemma NoRest()
    ensures FlattenRest([]) == [] && WellFormedRest([])
  {
  }

  lemma CloseFlattens(o: Open, cur: seq<Block>, end: nat)
    requires WellFormedOpen(o) && WellFormed(cur)
    ensures Flatten(o.before + [Close(o, cur, end)]) == FlattenOpen(o) + Flatten(cur) + [Tok(end, Endif)]
    ensures WellFormed(o.before + [Close(o, cur, end)])
  {
    hide Flatten, FlattenRest, FlattenBlock, WellFormed, WellFormedRest, WellFormedBlock;
    FlattenSnoc(o.before, Close(o, cur, end));
    var e := Tok(end, Endif);
    match o
    case InIf(before, line, c) => NoRest(); CondFlattens(line, c, cur, [], end);
    case InRest(before, line, c, body, rest, h) =>
      var last := h.(body := cur);
      FlattenRestSnoc(rest, last);
      CondFlattens(line, c, body, rest + [last], end);
      var r := FlattenRest(rest) + [HeadTok(h)] + Flatten(cur);
      assert FlattenRest(rest + [last]) == r;
      assert Flatten(before) + ([Tok(line, If(c))] + Flatten(body) + (r + [e]))
          == Flatten(before) + [Tok(line, If(c))] + Flatten(body) + FlattenRest(rest) + [HeadTok(h)] + Flatten(cur)
              + [e];
  }

  lemma OpensSnoc(os: seq<Open>, o: Open)
    ensures FlattenOpens(os + [o]) == FlattenOpens(os) + FlattenOpen(o)
  {
    hide FlattenOpen;
    assert (os + [o])[..|os|] == os;
  }

  /** These open conditionals and this current block are what was read. */
  predicate Parsed(os: seq<Open>, cur: seq<Block>, ts: seq<Tok>) {
    ts == FlattenOpens(os) + Flatten(cur) && WellFormed(cur) && forall o :: o in os ==> WellFormedOpen(o)
  }

  lemma ParseIf(os: seq<Open>, cur: seq<Block>, ts: seq<Tok>, t: Tok)
    requires Parsed(os, cur, ts) && t.item.If?
    ensures Parsed(os + [InIf(cur, t.line, t.item.cond)], [], ts + [t])
  {
    hide Flatten, FlattenOpens, WellFormed, WellFormedOpen;
    var o := InIf(cur, t.line, t.item.cond);
    OpensSnoc(os, o);
    InIfFlattens(cur, t);
    EmptyFlattens();
  }

  lemma ParsePlain(os: seq<Open>, cur: seq<Block>, ts: seq<Tok>, t: Tok)
    requires Parsed(os, cur, ts) && Plain(t)
    ensures Parsed(os, cur + [Just(t)], ts + [t])
  {
    hide Flatten, FlattenOpens, WellFormed, WellFormedOpen, Plain;
    FlattenSnoc(cur, Just(t));
  }

  lemma ParseTurn(os: seq<Open>, o: Open, cur: seq<Block>, ts: seq<Tok>, head: Branch)
    requires Parsed(os + [o], cur, ts)
    ensures Parsed(os + [Turn(o, cur, head)], [], ts + [HeadTok(head)])
  {
    hide Flatten, FlattenOpen, FlattenOpens, WellFormed, WellFormedOpen, Turn, HeadTok;
    assert o in os + [o];
    assert forall p :: p in os ==> p in os + [o];
    OpensSnoc(os, o);
    OpensSnoc(os, Turn(o, cur, head));
    TurnFlattens(o, cur, head);
    EmptyFlattens();
  }

  lemma ParseEnd(os: seq<Open>, o: Open, cur: seq<Block>, ts: seq<Tok>, end: nat)
    requires Parsed(os + [o], cur, ts)
    ensures Parsed(os, o.before + [Close(o, cur, end)], ts + [Tok(end, Endif)])
  {
    hide Flatten, FlattenOpen, FlattenOpens, WellFormed, WellFormedOpen, Close;
    assert o in os + [o];
    assert forall p :: p in os ==> p in os + [o];
    OpensSnoc(os, o);
    CloseFlattens(o, cur, end);
  }

  lemma {:induction false} ParsePrefix(ts: seq<Tok>) returns (os: seq<Open>, cur: seq<Block>)
    requires Depth(ts).Some?
    ensures |os| == Depth(ts).value && Parsed(os, cur, ts)
  {
    hide Parsed, Close, Turn, Plain;
    if ts == [] {
      os, cur := [], [];
      NothingParsed();
    } else {
      var pre, t := ts[..|ts| - 1], ts[|ts| - 1];
      os, cur := ParsePrefix(pre);
      assert ts == pre + [t];
      if t.item.If? {
        ParseIf(os, cur, pre, t);
        os, cur := os + [InIf(cur, t.line, t.item.cond)], [];
      } else if Plain(t) {
        PlainDepth(ts);
        ParsePlain(os, cur, pre, t);
        cur := cur + [Just(t)];
      } else {
        NotPlain(t);
        var n := |os| - 1;
        var o := os[n];
        assert os == os[..n] + [o];
        if t.item.Endif? {
          ParseEnd(os[..n], o, cur, pre, t.line);
          os, cur := os[..n], o.before + [Close(o, cur, t.line)];
        } else {
          var head := Branch(t.line, if t.item.Elsif? then Some(t.item.cond) else None, []);
          ParseTurn(os[..n], o, cur, pre, head);
          os, cur := os[..n] + [Turn(o, cur, head)], [];
        }
      }
    }
  }

  lemma NothingParsed()
    ensures Parsed([], [], [])
  {
    EmptyFlattens();
  }

  lemma PlainDepth(ts: seq<Tok>)
    requires ts != [] && Plain(ts[|ts| - 1])
    ensures Depth(ts) == Depth(ts[..|ts| - 1])
  {
  }

  lemma EmptyFlattens()
    ensures Flatten([]) == [] && FlattenOpens([]) == [] && WellFormed([])
  {
  }

  lemma InIfFlattens(cur: seq<Block>, t: Tok)
    requires t.item.If? && WellFormed(cur)
    ensures FlattenOpen(InIf(cur, t.line, t.item.cond)) == Flatten(cur) + [t]
        && WellFormedOpen(InIf(cur, t.line, t.item.cond))
  {
  }

  lemma PlainIs(t: Tok)
    ensures Plain(t) ==> !t.item.If? && !t.item.Endif?
  {
  }

  lemma NotPlain(t: Tok)
    requires !Plain(t)
    ensures t.item.If? || t.item.Elsif? || t.item.Else? || t.item.Endif?
  {
  }

  /** Every well-nested file is a block tree laid flat. */
  lemma TreeExists(ts: seq<Tok>) returns (bs: seq<Block>)
    requires WellNested(ts)
    ensures WellFormed(bs) && Flatten(bs) == ts
  {
    hide Flatten, WellFormed, Depth;
    var os, cur := ParsePrefix(ts);
    assert os == [];
    EmptyFlattens();
    bs := cur;
  }

  lemma {:induction false} StraightErrors(ts: seq<Tok>, maxFormat: int, c: Ctx)
    requires forall t :: t in ts ==> Plain(t)
    ensures Straight(ts, maxFormat, c).Err? ==>
              Straight(ts, maxFormat, c).error.BadFormat? || Straight(ts, maxFormat, c).error.BadDirective?
  {
    if ts != [] {
      StraightErrors(ts[..|ts| - 1], maxFormat, c);
    }
  }

  /** A file is well nested exactly when it is a block tree; then it reads as
      the tree selects, and otherwise it is refused. */
  lemma ReadsExactly(ts: seq<Tok>, maxFormat: int)
    ensures WellNested(ts) <==> exists bs :: WellFormed(bs) && Flatten(bs) == ts
    ensures forall bs :: WellFormed(bs) && Flatten(bs) == ts ==>
              && (forall t :: t in Select(bs) ==> Plain(t))
              && Reading(ts, maxFormat) == Lines(Straight(Select(bs), maxFormat, START.ctx))
    ensures !WellNested(ts) ==> Reading(ts, maxFormat).Err?
  {
    hide Flatten, WellFormed, Depth, Run, Straight, Select, Plain;
    forall bs | WellFormed(bs) && Flatten(bs) == ts
      ensures (forall t :: t in Select(bs) ==> Plain(t))
              && Reading(ts, maxFormat) == Lines(Straight(Select(bs), maxFormat, START.ctx))
      ensures WellNested(ts)
    {
      MachineIsTree(bs, maxFormat);
      EmptyDepth();
      FlattenDepth(bs, []);
      assert [] + ts == ts;
    }
    if WellNested(ts) {
      var bs := TreeExists(ts);
    } else {
      IllNestedFails(ts, maxFormat);
    }
  }

  lemma EmptyDepth()
    ensures Depth([]) == Some(0)
  {
  }

  lemma DepthSnoc(ts: seq<Tok>, t: Tok)
    requires Depth(ts).Some?
    ensures var d := Depth(ts).value;
            match t.item
            case If(_) => Depth(ts + [t]) == Some(d + 1)
            case Endif => d > 0 ==> Depth(ts + [t]) == Some(d - 1)
            case _ => d > 0 || Plain(t) ==> Depth(ts + [t]) == Some(d)
  {
    assert (ts + [t])[..|ts|] == ts;
  }

  lemma {:induction false} FlattenDepth(bs: seq<Block>, pre: seq<Tok>)
    requires WellFormed(bs) && Depth(pre).Some?
    ensures Depth(pre + Flatten(bs)) == Depth(pre)
  {
    hide Depth, Plain;
    if bs == [] {
      assert pre + Flatten(bs) == pre;
    } else {
      assert pre + Flatten(bs) == pre + FlattenBlock(bs[0]) + Flatten(bs[1..]);
      FlattenBlockDepth(bs[0], pre);
      FlattenDepth(bs[1..], pre + FlattenBlock(bs[0]));
    }
  }

  lemma {:induction false} FlattenBlockDepth(b: Block, pre: seq<Tok>)
    requires WellFormedBlock(b) && Depth(pre).Some?
    ensures Depth(pre + FlattenBlock(b)) == Depth(pre)
  {
    hide Flatten, FlattenRest, Depth, Plain;
    match b
    case Just(t) => DepthSnoc(pre, t);
      assert Plain(t) ==> !t.item.If? && !t.item.Endif? by { PlainIs(t); }
    case Cond(line, c, body, rest, end) =>
      var t, e := Tok(line, If(c)), Tok(end, Endif);
      DepthSnoc(pre, t);
      FlattenDepth(body, pre + [t]);
      FlattenRestDepth(rest, pre + [t] + Flatten(body));
      DepthSnoc(pre + [t] + Flatten(body) + FlattenRest(rest), e);
      assert pre + FlattenBlock(b) == pre + [t] + Flatten(body) + FlattenRest(rest) + [e];
  }

  lemma {:induction false} FlattenRestDepth(rest: seq<Branch>, pre: seq<Tok>)
    requires WellFormedRest(rest) && Depth(pre).Some? && Depth(pre).value > 0
    ensures Depth(pre + FlattenRest(rest)) == Depth(pre)
  {
    hide Flatten, Depth;
    if rest == [] {
      assert pre + FlattenRest(rest) == pre;
    } else {
      var h := HeadTok(rest[0]);
      DepthSnoc(pre, h);
      FlattenDepth(rest[0].body, pre + [h]);
      FlattenRestDepth(rest[1..], pre + [h] + Flatten(rest[0].body));
      assert pre + FlattenRest(rest) == pre + [h] + Flatten(rest[0].body) + FlattenRest(rest[1..]);
    }
  }

  // -------------------------------------------------------- section and format

  /** The section and format named last before position i. */
  predicate InForce(ts: seq<Tok>, i: nat, section: Option<string>, fmt: int)
    requires i <= |ts|
  {
    && (match section
        case None => forall j :: 0 <= j < i ==> !ts[j].item.Section?
        case Some(name) => exists j :: 0 <= j < i && ts[j].item == Section(name)
                                       && forall k :: j < k < i ==> !ts[k].item.Section?)
    && ((fmt == 1 && forall j :: 0 <= j < i ==> !ts[j].item.Format?)
        || exists j :: 0 <= j < i && ts[j].item == Format(Some(fmt)) && forall k :: j < k < i ==> !ts[k].item.Format?)
  }

  /** Where the text lines stand. */
  function Texts(ts: seq<Tok>): (r: seq<nat>)
    ensures forall k :: 0 <= k < |r| ==> r[k] < |ts| && ts[r[k]].item.Text?
  {
    if ts == [] then []
    else Texts(ts[..|ts| - 1]) + if ts[|ts| - 1].item.Text? then [|ts| - 1] else []
  }

  lemma InForceLonger(ts: seq<Tok>, t: Tok, i: nat, section: Option<string>, fmt: int)
    requires i <= |ts| && InForce(ts, i, section, fmt)
    ensures InForce(ts + [t], i, section, fmt)
  {
    var us := ts + [t];
    assert forall j :: 0 <= j < i ==> us[j] == ts[j];
    if section.Some? {
      var j :| 0 <= j < i && ts[j].item == Section(section.value) && forall k :: j < k < i ==> !ts[k].item.Section?;
      assert us[j].item == Section(section.value);
    }
    if exists j :: 0 <= j < i && ts[j].item.Format? {
      var j :| 0 <= j < i && ts[j].item == Format(Some(fmt)) && forall k :: j < k < i ==> !ts[k].item.Format?;
      assert us[j].item == Format(Some(fmt));
    }
  }

  lemma InForceNext(ts: seq<Tok>, t: Tok, c: Ctx, maxFormat: int)
    requires Plain(t) && InForce(ts, |ts|, c.section, c.fmt) && Obey(t, maxFormat, c).Ok?
    ensures var d := Obey(t, maxFormat, c).value; InForce(ts + [t], |ts| + 1, d.section, d.fmt)
  {
    var us, n := ts + [t], |ts|;
    InForceLonger(ts, t, n, c.section, c.fmt);
    if t.item.Section? {
      assert us[n].item == Section(t.item.name);
    } else if c.section.Some? {
      var j :| 0 <= j < n && us[j].item == Section(c.section.value) && forall k :: j < k < n ==> !us[k].item.Section?;
      assert forall k :: j < k < n + 1 ==> !us[k].item.Section?;
    }
    if t.item.Format? {
      assert us[n].item == Format(Some(t.item.number.value));
    } else if exists j :: 0 <= j < n && us[j].item.Format? {
      var j :| 0 <= j < n && us[j].item == Format(Some(c.fmt)) && forall k :: j < k < n ==> !us[k].item.Format?;
      assert forall k :: j < k < n + 1 ==> !us[k].item.Format?;
    }
  }

  /** These lines are the text lines, in order, each with what is in force there. */
  predicate Carried(ts: seq<Tok>, out: seq<Line>) {
    && |out| == |Texts(ts)|
    && forall k :: 0 <= k < |out| ==>
         var i := Texts(ts)[k];
         out[k].line == ts[i].line && out[k].text == ts[i].item.text && InForce(ts, i, out[k].section, out[k].fmt)
  }

  lemma CarriedNext(pre: seq<Tok>, t: Tok, b: Ctx, c: Ctx, maxFormat: int)
    requires Carried(pre, b.out) && InForce(pre, |pre|, b.section, b.fmt) && Plain(t) && Obey(t, maxFormat, b) == Ok(c)
    ensures Carried(pre + [t], c.out)
  {
    hide InForce, Texts;
    var ts := pre + [t];
    TextsSnoc(pre, t);
    forall k | 0 <= k < |c.out|
      ensures k < |Texts(ts)|
              && c.out[k].line == ts[Texts(ts)[k]].line && c.out[k].text == ts[Texts(ts)[k]].item.text
              && InForce(ts, Texts(ts)[k], c.out[k].section, c.out[k].fmt)
    {
      if k < |b.out| {
        InForceLonger(pre, t, Texts(pre)[k], b.out[k].section, b.out[k].fmt);
      } else {
        InForceLonger(pre, t, |pre|, b.section, b.fmt);
      }
    }
  }

  lemma TextsSnoc(pre: seq<Tok>, t: Tok)
    ensures Texts(pre + [t]) == Texts(pre) + if t.item.Text? then [|pre|] else []
  {
    assert (pre + [t])[..|pre|] == pre;
  }

  /** Each text line selected comes out once, in order, with the section and
      format of the last live directive before it. */
  lemma {:induction false} CarriesLast(ts: seq<Tok>, maxFormat: int)
    requires (forall t :: t in ts ==> Plain(t)) && Straight(ts, maxFormat, START.ctx).Ok?
    ensures var c := Straight(ts, maxFormat, START.ctx).value;
            InForce(ts, |ts|, c.section, c.fmt) && Carried(ts, c.out)
  {
    hide InForce, Plain, Carried, Obey;
    if ts == [] {
      EmptyInForce();
    } else {
      var pre, t := ts[..|ts| - 1], ts[|ts| - 1];
      CarriesLast(pre, maxFormat);
      assert ts == pre + [t] && t in ts;
      var b := Straight(pre, maxFormat, START.ctx).value;
      var c := Straight(ts, maxFormat, START.ctx).value;
      InForceNext(pre, t, b, maxFormat);
      CarriedNext(pre, t, b, c, maxFormat);
    }
  }

  lemma EmptyInForce()
    ensures InForce([], 0, None, 1) && Carried([], [])
  {
  }

  // ------------------------------------------------------- continuation lines

  datatype Logical = Logical(start: nat, text: string)

  predicate Continued(line: string) {
    line != [] && line[|line| - 1] == '\\'
  }

  /** A physical line without its continuation mark. */
  function Bare(line: string): string {
    if Continued(line) then line[..|line| - 1] else line
  }

  /** What is held back, where it began, and the logical lines so far. */
  datatype Joined = Joined(buf: string, start: nat, out: seq<Logical>)

  function Join(raw: seq<string>): Joined {
    if raw == [] then Joined("", 0, [])
    else
      var j, line := Join(raw[..|raw| - 1]), raw[|raw| - 1];
      var start := if j.buf == "" then |raw| else j.start;
      if Continued(line) then Joined(j.buf + Bare(line), start, j.out)
      else Joined("", start, j.out + [Logical(start, j.buf + line)])
  }

  method JoinLines(raw: seq<string>) returns (out: seq<Logical>)
    ensures out == Join(raw).out
  {
    var buf, start := "", 0;
    out := [];
    for i := 0 to |raw|
      invariant Join(raw[..i]) == Joined(buf, start, out)
    {
      assert raw[..i + 1][..i] == raw[..i];
      var line := raw[i];
      if buf == "" {
        start := i + 1;
      }
      if Continued(line) {
        buf := buf + line[..|line| - 1];
      } else {
        buf := buf + line;
        out := out + [Logical(start, buf)];
        buf := "";
      }
    }
    assert raw[..|raw|] == raw;
  }

  function AllText(out: seq<Logical>): string {
    if out == [] then "" else AllText(out[..|out| - 1]) + out[|out| - 1].text
  }

  function AllBare(raw: seq<string>): string {
    if raw == [] then "" else AllBare(raw[..|raw| - 1]) + Bare(raw[|raw| - 1])
  }

  /** Joining keeps every character but the marks, except what is still held
      back at the end of the file. */
  lemma {:induction false} JoinConserves(raw: seq<string>)
    ensures AllText(Join(raw).out) + Join(raw).buf == AllBare(raw)
  {
    if raw != [] {
      var pre := raw[..|raw| - 1];
      JoinConserves(pre);
      var j, j' := Join(pre), Join(raw);
      if !Continued(raw[|raw| - 1]) {
        assert j'.out[..|j.out|] == j.out;
      }
    }
  }

  /** The file ends in continued lines that are not all bare backslashes. */
  predicate EndsHeld(raw: seq<string>) {
    exists i :: 0 <= i < |raw| && raw[i] != "\\" && forall j :: i <= j < |raw| ==> Continued(raw[j])
  }

  lemma EndsHeldSnoc(raw: seq<string>, line: string)
    ensures EndsHeld(raw + [line]) <==> Continued(line) && (line != "\\" || EndsHeld(raw))
  {
    hide Continued;
    var all, n := raw + [line], |raw|;
    assert all[n] == line && forall j :: 0 <= j < n ==> all[j] == raw[j];
    if Continued(line) && EndsHeld(raw) {
      var i :| 0 <= i < |raw| && raw[i] != "\\" && forall j :: i <= j < |raw| ==> Continued(raw[j]);
      assert all[i] != "\\" && forall j :: i <= j < |all| ==> Continued(all[j]);
    }
    if Continued(line) && line != "\\" {
      assert all[n] != "\\" && forall j :: n <= j < |all| ==> Continued(all[j]);
    }
    if EndsHeld(all) && line == "\\" {
      var i :| 0 <= i < |all| && all[i] != "\\" && forall j :: i <= j < |all| ==> Continued(all[j]);
      assert raw[i] != "\\" && forall j :: i <= j < |raw| ==> Continued(raw[j]);
    }
  }

  lemma {:induction false} HeldBack(raw: seq<string>)
    ensures Join(raw).buf != "" <==> EndsHeld(raw)
  {
    hide EndsHeld;
    if raw == [] {
      NothingHeld();
    } else {
      var pre, line := raw[..|raw| - 1], raw[|raw| - 1];
      HeldBack(pre);
      assert raw == pre + [line];
      EndsHeldSnoc(pre, line);
      BareEmpty(line);
    }
  }

  lemma NothingHeld()
    ensures !EndsHeld([])
  {
  }

  lemma BareEmpty(line: string)
    ensures Continued(line) ==> (Bare(line) == "" <==> line == "\\")
  {
    if Continued(line) {
      assert line == Bare(line) + ['\\'];
    }
  }

  /** Text is lost exactly when the file ends in continued lines that are not
      all bare backslashes: the logical line they hold is dropped. */
  lemma DroppedExactly(raw: seq<string>)
    ensures AllText(Join(raw).out) != AllBare(raw) <==> EndsHeld(raw)
  {
    hide EndsHeld, Join, AllText, AllBare;
    JoinConserves(raw);
    HeldBack(raw);
    var text, held := AllText(Join(raw).out), Join(raw).buf;
    assert |AllBare(raw)| == |text| + |held|;
    if held == "" {
      assert text + held == text;
    }
  }

  // A logical line is a group of physical lines: some continued, then one not.

  /** The groups, from first line to end, and where the unfinished one begins. */
  datatype Groups = Groups(done: seq<(nat, nat)>, next: nat)

  function GroupsOf(raw: seq<string>): (g: Groups)
    ensures g.next <= |raw|
  {
    if raw == [] then Groups([], 0)
    else
      var g := GroupsOf(raw[..|raw| - 1]);
      if Continued(raw[|raw| - 1]) then g else Groups(g.done + [(g.next, |raw|)], |raw|)
  }

  /** Line n is the first from lo on that is not a bare backslash, and before `end`. */
  predicate FirstWithText(raw: seq<string>, lo: nat, end: nat, n: nat) {
    lo <= n < end <= |raw| && raw[n] != "\\" && forall j :: lo <= j < n ==> raw[j] == "\\"
  }

  /** What is being held back: nothing but bare backslashes yet, or text that began at `start`. */
  predicate HeldFrom(raw: seq<string>, next: nat, j: Joined) {
    if j.buf == "" then forall i :: next <= i < |raw| ==> raw[i] == "\\"
    else j.start >= 1 && FirstWithText(raw, next, |raw|, j.start - 1)
  }

  predicate Started(raw: seq<string>, done: seq<(nat, nat)>, out: seq<Logical>) {
    |out| == |done|
    && forall k :: 0 <= k < |out| ==> out[k].start >= 1 && FirstWithText(raw, done[k].0, done[k].1, out[k].start - 1)
  }

  lemma StartedLonger(raw: seq<string>, line: string, done: seq<(nat, nat)>, out: seq<Logical>)
    requires Started(raw, done, out)
    ensures Started(raw + [line], done, out)
  {
    forall k | 0 <= k < |out|
      ensures FirstWithText(raw + [line], done[k].0, done[k].1, out[k].start - 1)
    {
      assert FirstWithText(raw, done[k].0, done[k].1, out[k].start - 1);
    }
  }

  lemma HeldStep(pre: seq<string>, line: string, next: nat, b: Joined)
    requires next <= |pre| && HeldFrom(pre, next, b)
    ensures var n := if b.buf == "" then |pre| + 1 else b.start;
            && (line != "\\" || b.buf != "" ==> n >= 1 && FirstWithText(pre + [line], next, |pre| + 1, n - 1))
            && (line == "\\" && b.buf == "" ==> forall i :: next <= i < |pre| + 1 ==> (pre + [line])[i] == "\\")
  {
  }

  lemma StepBack(pre: seq<string>, line: string)
    ensures (pre + [line])[..|pre|] == pre && (pre + [line])[|pre|] == line
    ensures line == "\\" ==> Continued(line)
  {
  }

  /** A logical line carries the number of the first of its physical lines that
      is not a bare backslash. */
  lemma {:induction false} JoinStarts(raw: seq<string>)
    ensures Started(raw, GroupsOf(raw).done, Join(raw).out) && HeldFrom(raw, GroupsOf(raw).next, Join(raw))
  {
    hide FirstWithText, Started, HeldFrom, Continued;
    if raw == [] {
      NothingStarted();
    } else {
      var pre, line := raw[..|raw| - 1], raw[|raw| - 1];
      JoinStarts(pre);
      assert raw == pre + [line];
      StepBack(pre, line);
      JoinStep(pre, line, GroupsOf(pre), Join(pre));
    }
  }

  lemma NothingStarted()
    ensures Started([], GroupsOf([]).done, Join([]).out) && HeldFrom([], GroupsOf([]).next, Join([]))
  {
  }

  lemma JoinStep(pre: seq<string>, line: string, g: Groups, b: Joined)
    requires g.next <= |pre| && Started(pre, g.done, b.out) && HeldFrom(pre, g.next, b)
    ensures var n := if b.buf == "" then |pre| + 1 else b.start;
            if Continued(line) then
              Started(pre + [line], g.done, b.out)
                  && HeldFrom(pre + [line], g.next, Joined(b.buf + Bare(line), n, b.out))
            else
              && Started(pre + [line], g.done + [(g.next, |pre| + 1)], b.out + [Logical(n, b.buf + line)])
              && HeldFrom(pre + [line], |pre| + 1, Joined("", n, b.out + [Logical(n, b.buf + line)]))
  {
    hide FirstWithText;
    StartedLonger(pre, line, g.done, b.out);
    HeldStep(pre, line, g.next, b);
    BareEmpty(line);
    StepBack(pre, line);
  }

  // ------------------------------------------------------------- which error

  /** A directive that a live line may not have. */
  predicate Bad(t: Tok, maxFormat: int) {
    t.item.Unknown? || (t.item.Format? && !exists n :: 1 <= n <= maxFormat && t.item.number == Some(n))
  }

  function Complaint(t: Tok): Error {
    if t.item.Unknown? then BadDirective(t.line) else BadFormat(t.line)
  }

  /** Selected lines are accepted exactly when each ?FORMAT names a number from
      one to the file's last format and no directive is unknown; otherwise the
      first that does not is reported, at its own line. */
  lemma {:induction false} StraightExactly(ts: seq<Tok>, maxFormat: int, c: Ctx)
    requires forall t :: t in ts ==> Plain(t)
    ensures match Straight(ts, maxFormat, c)
            case Ok(_) => forall i :: 0 <= i < |ts| ==> !Bad(ts[i], maxFormat)
            case Err(x) => exists i :: 0 <= i < |ts| && Bad(ts[i], maxFormat) && x == Complaint(ts[i])
                             && forall j :: 0 <= j < i ==> !Bad(ts[j], maxFormat)
  {
    hide Plain, Bad;
    if ts != [] {
      var n := |ts| - 1;
      StraightExactly(ts[..n], maxFormat, c);
      assert forall i :: 0 <= i < n ==> ts[..n][i] == ts[i];
      assert ts[n] in ts;
      if Straight(ts[..n], maxFormat, c).Ok? {
        ObeyExactly(ts[n], maxFormat, Straight(ts[..n], maxFormat, c).value);
      }
    }
  }

  lemma ObeyExactly(t: Tok, maxFormat: int, c: Ctx)
    requires Plain(t)
    ensures Bad(t, maxFormat) ==> Obey(t, maxFormat, c) == Err(Complaint(t))
    ensures !Bad(t, maxFormat) ==> Obey(t, maxFormat, c).Ok?
  {
  }

  /** After a file that reads well, a branch or an end that opens nothing, and an
      `?IF` that nothing closes, are each reported as what they are. */
  lemma NestingErrors(pre: seq<Tok>, line: nat, cond: bool, post: seq<Tok>, maxFormat: int)
    requires Reading(pre, maxFormat).Ok?
    ensures Reading(pre + [Tok(line, Elsif(cond))] + post, maxFormat) == Err(ElsifWithoutIf(line))
    ensures Reading(pre + [Tok(line, Else)] + post, maxFormat) == Err(ElseWithoutIf(line))
    ensures Reading(pre + [Tok(line, Endif)] + post, maxFormat) == Err(EndifWithoutIf(line))
    ensures Reading(pre + [Tok(line, If(cond))], maxFormat) == Err(IfWithoutEndif)
  {
    hide Run, Step;
    var s := Run(pre, maxFormat, START).value;
    OpensNothing(Tok(line, Elsif(cond)), maxFormat, s);
    OpensNothing(Tok(line, Else), maxFormat, s);
    OpensNothing(Tok(line, Endif), maxFormat, s);
    OpensNothing(Tok(line, If(cond)), maxFormat, s);
    forall t: Tok
      ensures Run(pre + [t], maxFormat, START) == Step(t, maxFormat, s)
      ensures Step(t, maxFormat, s).Err? ==> Run(pre + [t] + post, maxFormat, START) == Step(t, maxFormat, s)
    {
      RunPlus(pre, [t], maxFormat, START);
      RunOne(t, maxFormat, s);
      RunPlus(pre + [t], post, maxFormat, START);
    }
  }

  lemma OpensNothing(t: Tok, maxFormat: int, s: State)
    requires s.stack == []
    ensures t.item.Elsif? ==> Step(t, maxFormat, s) == Err(ElsifWithoutIf(t.line))
    ensures t.item.Else? ==> Step(t, maxFormat, s) == Err(ElseWithoutIf(t.line))
    ensures t.item.Endif? ==> Step(t, maxFormat, s) == Err(EndifWithoutIf(t.line))
    ensures t.item.If? ==> Step(t, maxFormat, s).Ok? && Step(t, maxFormat, s).value.stack != []
  {
  }
}
