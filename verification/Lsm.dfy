/** The link monitor: hysteresis over probe results, and the status line that
    carries it from one stateless run to the next. */
module Lsm {
  import opened Wrappers
  import opened Text

  datatype LinkState = Up | Down

  /** One monitored provider's policy; targets are probed in order. */
  datatype Cfg = Cfg(up: int, down: int, reliability: int, maxLatency: int, maxLoss: int, targets: seq<string>) {
    /** What the parser guarantees of the thresholds. */
    ghost predicate Valid() {
      up >= 1 && down >= 1 && reliability >= 1 && maxLatency >= 0 && maxLoss >= 0 && targets != []
    }
  }

  datatype Hysteresis = Hysteresis(state: LinkState, okRun: int, failRun: int)

  const FRESH := Hysteresis(Up, 0, 0)

  datatype Probe = Probe(ok: bool, rtt: Option<real>, loss: int)

  /** The state after one check result, and the change it announces. */
  function Recorded(c: Cfg, h: Hysteresis, ok: bool): (Hysteresis, Option<LinkState>) {
    if ok then
      if h.state == Down && h.okRun + 1 >= c.up then (Hysteresis(Up, h.okRun + 1, 0), Some(Up))
      else (Hysteresis(h.state, h.okRun + 1, 0), None)
    else
      if h.state == Up && h.failRun + 1 >= c.down then (Hysteresis(Down, 0, h.failRun + 1), Some(Down))
      else (Hysteresis(h.state, 0, h.failRun + 1), None)
  }

  /** A check is good: a quorum answers, no answer is slow and no target is lossy. */
  ghost predicate Healthy(c: Cfg, ps: seq<Probe>) {
    && Answering(ps) >= c.reliability
    && (c.maxLatency > 0 ==>
          forall i :: 0 <= i < |ps| && ps[i].ok && ps[i].rtt.Some? ==> ps[i].rtt.value <= c.maxLatency as real)
    && (c.maxLoss > 0 ==> forall i :: 0 <= i < |ps| ==> ps[i].loss <= c.maxLoss)
  }

  ghost function Answering(ps: seq<Probe>): nat {
    if ps == [] then 0 else Answering(ps[..|ps| - 1]) + if ps[|ps| - 1].ok then 1 else 0
  }

  class Monitor {
    const cfg: Cfg
    var state: LinkState
    var okRun: int
    var failRun: int
    var rtt: Option<real>
    var loss: int

    function Value(): Hysteresis
      reads this
    {
      Hysteresis(state, okRun, failRun)
    }

    constructor (c: Cfg)
      ensures cfg == c && Value() == FRESH
    {
      cfg := c;
      state, okRun, failRun, rtt, loss := Up, 0, 0, None, 0;
    }

    method Record(ok: bool) returns (change: Option<LinkState>)
      modifies this
      ensures (Value(), change) == Recorded(cfg, old(Value()), ok)
      ensures rtt == old(rtt) && loss == old(loss)
    {
      if ok {
        okRun := okRun + 1;
        failRun := 0;
        if state == Down && okRun >= cfg.up {
          state := Up;
          return Some(Up);
        }
      } else {
        failRun := failRun + 1;
        okRun := 0;
        if state == Up && failRun >= cfg.down {
          state := Down;
          return Some(Down);
        }
      }
      return None;
    }

    /** One probe result per target, quorum and thresholds applied, then Record. */
    method Check(ps: seq<Probe>) returns (change: Option<LinkState>)
      requires cfg.Valid() && |ps| == |cfg.targets|
      modifies this
      ensures (Value(), change) == Recorded(cfg, old(Value()), Healthy(cfg, ps))
    {
      var answered := 0;
      var worst: Option<real> := None;
      var lost: Option<int> := None;
      for i := 0 to |ps|
        invariant answered == Answering(ps[..i])
        invariant lost.None? <==> i == 0
        invariant forall j :: 0 <= j < i ==> ps[j].loss <= lost.value
        invariant lost.Some? ==> exists j :: 0 <= j < i && ps[j].loss == lost.value
        invariant forall j :: 0 <= j < i && ps[j].ok && ps[j].rtt.Some? ==>
                    worst.Some? && ps[j].rtt.value <= worst.value
        invariant worst.Some? ==> exists j :: 0 <= j < i && ps[j].ok && ps[j].rtt == worst
        invariant Value() == old(Value())
      {
        assert ps[..i + 1][..i] == ps[..i];
        lost := if lost.None? || ps[i].loss > lost.value then Some(ps[i].loss) else lost;
        if ps[i].ok {
          answered := answered + 1;
          if ps[i].rtt.Some? && (worst.None? || ps[i].rtt.value > worst.value) {
            worst := ps[i].rtt;
          }
        }
      }
      assert ps[..|ps|] == ps;
      rtt := worst;
      loss := if lost.None? then 100 else lost.value;
      var reachable := answered >= cfg.reliability;
      var degraded := cfg.maxLatency != 0 && rtt.Some? && rtt.value != 0.0 && rtt.value > cfg.maxLatency as real;
      degraded := degraded || (cfg.maxLoss != 0 && loss > cfg.maxLoss);
      change := Record(reachable && !degraded);
    }

    /** Reload what an earlier run wrote; anything unreadable leaves a field alone. */
    method Restore(text: string)
      modifies this
      ensures Value() == Restored(old(Value()), text)
      ensures rtt == old(rtt) && loss == old(loss)
    {
      var toks := Tokens(text);
      if toks != [] && toks[0] == "up" {
        state := Up;
      } else if toks != [] && toks[0] == "down" {
        state := Down;
      }
      ghost var start := Value();
      for i := 0 to |toks|
        invariant Value() == Counters(start, toks[..i])
        invariant rtt == old(rtt) && loss == old(loss)
      {
        assert toks[..i + 1][..i] == toks[..i];
        var t := toks[i];
        if "ok=" <= t {
          var n := ParseInt(t[3..]);
          if n.Some? { okRun := n.value; }
        } else if "fail=" <= t {
          var n := ParseInt(t[5..]);
          if n.Some? { failRun := n.value; }
        }
      }
      assert toks[..|toks|] == toks;
    }
  }

  // --------------------------------------------------------- whole traces

  function Trace(c: Cfg, oks: seq<bool>): Hysteresis {
    if oks == [] then FRESH else Recorded(c, Trace(c, oks[..|oks| - 1]), oks[|oks| - 1]).0
  }

  /** The changes announced along the trace, in order. */
  function Changes(c: Cfg, oks: seq<bool>): seq<LinkState> {
    if oks == [] then []
    else
      var change := Recorded(c, Trace(c, oks[..|oks| - 1]), oks[|oks| - 1]).1;
      Changes(c, oks[..|oks| - 1]) + if change.Some? then [change.value] else []
  }

  /** The n results ending at position j are all v. */
  ghost predicate RunEnds(oks: seq<bool>, v: bool, n: int, j: int) {
    0 <= j - n && j <= |oks| && forall i :: j - n <= i < j ==> oks[i] == v
  }

  /** The counters are the lengths of the current runs, and a run that would
      flip the state has already done so. */
  lemma {:induction false} RunLengths(c: Cfg, oks: seq<bool>)
    requires c.Valid()
    ensures var h := Trace(c, oks);
      && 0 <= h.okRun <= |oks| && 0 <= h.failRun <= |oks|
      && RunEnds(oks, true, h.okRun, |oks|) && RunEnds(oks, false, h.failRun, |oks|)
      && (h.okRun < |oks| ==> !oks[|oks| - 1 - h.okRun])
      && (h.failRun < |oks| ==> oks[|oks| - 1 - h.failRun])
      && (if h.state == Up then h.failRun < c.down else h.okRun < c.up)
  {
    if oks != [] {
      RunLengths(c, oks[..|oks| - 1]);
    }
  }

  /** The latest run that reached its threshold was a failing one. */
  ghost predicate LastLongRunFails(c: Cfg, oks: seq<bool>) {
    exists j :: RunEnds(oks, false, c.down, j) && forall k :: j < k <= |oks| ==> !RunEnds(oks, true, c.up, k)
  }

  /** One more result: only a run that ends here can change the answer. */
  lemma LongRunStep(c: Cfg, oks: seq<bool>)
    requires c.Valid() && oks != []
    ensures LastLongRunFails(c, oks) <==>
            !RunEnds(oks, true, c.up, |oks|) &&
            (RunEnds(oks, false, c.down, |oks|) || LastLongRunFails(c, oks[..|oks| - 1]))
  {
    var pre, n := oks[..|oks| - 1], |oks|;
    assert forall v, m, j :: j < n ==> (RunEnds(oks, v, m, j) <==> RunEnds(pre, v, m, j));
    if RunEnds(oks, true, c.up, n) {
      assert oks[n - 1];
    } else if RunEnds(oks, false, c.down, n) {
      assert forall k :: n < k <= n ==> !RunEnds(oks, true, c.up, k);
    }
  }

  lemma LongRunNow(c: Cfg, oks: seq<bool>)
    requires c.Valid() && oks != []
    ensures var h := Trace(c, oks);
      && (RunEnds(oks, true, c.up, |oks|) <==> h.okRun >= c.up)
      && (RunEnds(oks, false, c.down, |oks|) <==> h.failRun >= c.down)
  {
    RunLengths(c, oks);
  }

  lemma {:induction false} StateIsLatestLongRun(c: Cfg, oks: seq<bool>)
    requires c.Valid()
    ensures Trace(c, oks).state == Down <==> LastLongRunFails(c, oks)
  {
    if oks != [] {
      var pre := oks[..|oks| - 1];
      StateIsLatestLongRun(c, pre);
      RunLengths(c, pre);
      LongRunNow(c, oks);
      LongRunStep(c, oks);
    }
  }

  ghost function Count(cs: seq<LinkState>, v: LinkState): nat {
    if cs == [] then 0 else Count(cs[..|cs| - 1], v) + if cs[|cs| - 1] == v then 1 else 0
  }

  /** Changes alternate, starting with Down, and the last one is the state. */
  lemma {:induction false} ChangesAlternate(c: Cfg, oks: seq<bool>)
    ensures var cs := Changes(c, oks);
      && (forall i :: 0 <= i < |cs| ==> cs[i] == if i % 2 == 0 then Down else Up)
      && Trace(c, oks).state == if |cs| % 2 == 0 then Up else Down
  {
    if oks != [] {
      ChangesAlternate(c, oks[..|oks| - 1]);
    }
  }

  /** The checks the announced changes must have cost. */
  ghost function Cost(c: Cfg, cs: seq<LinkState>): int {
    if cs == [] then 0
    else Cost(c, cs[..|cs| - 1]) + if cs[|cs| - 1] == Down then c.down else c.up
  }

  lemma {:induction false} CostIsProduct(c: Cfg, cs: seq<LinkState>)
    ensures Cost(c, cs) == Count(cs, Down) * c.down + Count(cs, Up) * c.up
  {
    if cs != [] {
      var pre := cs[..|cs| - 1];
      CostIsProduct(c, pre);
      assert (Count(pre, Down) + 1) * c.down == Count(pre, Down) * c.down + c.down;
      assert (Count(pre, Up) + 1) * c.up == Count(pre, Up) * c.up + c.up;
    }
  }

  /** Checks already spent on the next change. */
  function Credit(h: Hysteresis): int {
    if h.state == Up then h.failRun else h.okRun
  }

  function Price(c: Cfg, change: Option<LinkState>): int {
    if change.None? then 0 else if change.value == Down then c.down else c.up
  }

  lemma CreditStep(c: Cfg, h: Hysteresis, ok: bool)
    requires c.Valid() && h.okRun >= 0 && h.failRun >= 0
    requires if h.state == Up then h.failRun < c.down else h.okRun < c.up
    ensures var (h', change) := Recorded(c, h, ok);
      Price(c, change) + Credit(h') <= Credit(h) + 1
  {
  }

  lemma ChangesStep(c: Cfg, oks: seq<bool>)
    requires oks != []
    ensures var pre := oks[..|oks| - 1];
      Cost(c, Changes(c, oks))
      == Cost(c, Changes(c, pre)) + Price(c, Recorded(c, Trace(c, pre), oks[|oks| - 1]).1)
  {
    var pre := oks[..|oks| - 1];
    var cs, change := Changes(c, pre), Recorded(c, Trace(c, pre), oks[|oks| - 1]).1;
    if change.Some? {
      assert (cs + [change.value])[..|cs|] == cs;
    } else {
      assert Changes(c, oks) == cs;
    }
  }

  lemma {:induction false} FlapCredit(c: Cfg, oks: seq<bool>)
    requires c.Valid()
    ensures Cost(c, Changes(c, oks)) + Credit(Trace(c, oks)) <= |oks|
  {
    if oks != [] {
      var pre := oks[..|oks| - 1];
      FlapCredit(c, pre);
      RunLengths(c, pre);
      CreditStep(c, Trace(c, pre), oks[|oks| - 1]);
      ChangesStep(c, oks);
    }
  }

  /** Every change is paid for by its own run of checks, so flapping is bounded. */
  lemma FlapBound(c: Cfg, oks: seq<bool>)
    requires c.Valid()
    ensures Count(Changes(c, oks), Down) * c.down + Count(Changes(c, oks), Up) * c.up <= |oks|
  {
    FlapCredit(c, oks);
    CostIsProduct(c, Changes(c, oks));
    RunLengths(c, oks);
  }

  // ---------------------------------------------------------- status line

  predicate Space(ch: char) {
    ch == ' ' || ch == '\n' || ch == '\t' || ch == '\r'
  }

  predicate Solid(s: string) {
    s != [] && forall i :: 0 <= i < |s| ==> !Space(s[i])
  }

  function WordLength(s: string): (n: nat)
    ensures n <= |s|
  {
    if s == [] || Space(s[0]) then 0 else 1 + WordLength(s[1..])
  }

  /** The whitespace-separated tokens of a text. */
  function Tokens(s: string): seq<string>
    decreases |s|
  {
    if s == [] then []
    else if Space(s[0]) then Tokens(s[1..])
    else [s[..WordLength(s)]] + Tokens(s[WordLength(s)..])
  }

  function IntText(n: int): string {
    if n < 0 then "-" + NatText(-n) else NatText(n)
  }

  /** Digits, with single underscores allowed between two digits. */
  function ParseDigits(s: string): Option<nat> {
    if s == [] || !IsDigit(s[|s| - 1]) then None
    else
      var d := (s[|s| - 1] - '0') as nat;
      var rest := s[..|s| - 1];
      if rest == [] then Some(d)
      else
        var pre := ParseDigits(if rest[|rest| - 1] == '_' then rest[..|rest| - 1] else rest);
        if pre.None? then None else Some(pre.value * 10 + d)
  }

  function Signed(n: Option<nat>, negative: bool): Option<int> {
    match n
    case None => None
    case Some(v) => if negative then Some(0 - v) else Some(v)
  }

  function ParseInt(s: string): Option<int> {
    if s != [] && s[0] == '-' then Signed(ParseDigits(s[1..]), true)
    else if s != [] && s[0] == '+' then Signed(ParseDigits(s[1..]), false)
    else Signed(ParseDigits(s), false)
  }

  function Counters(h: Hysteresis, toks: seq<string>): Hysteresis {
    if toks == [] then h
    else
      var g := Counters(h, toks[..|toks| - 1]);
      var t := toks[|toks| - 1];
      if "ok=" <= t then
        var n := ParseInt(t[3..]);
        if n.Some? then g.(okRun := n.value) else g
      else if "fail=" <= t then
        var n := ParseInt(t[5..]);
        if n.Some? then g.(failRun := n.value) else g
      else g
  }

  function Restored(h: Hysteresis, text: string): Hysteresis {
    var toks := Tokens(text);
    var g := if toks != [] && toks[0] == "up" then h.(state := Up)
             else if toks != [] && toks[0] == "down" then h.(state := Down) else h;
    Counters(g, toks)
  }

  function StateText(s: LinkState): string {
    if s == Up then "up" else "down"
  }

  function Fields(h: Hysteresis, rtt: string, loss: int, now: int): seq<string> {
    [StateText(h.state), "rtt=" + rtt, "loss=" + IntText(loss) + "%", "at=" + IntText(now),
     "ok=" + IntText(h.okRun), "fail=" + IntText(h.failRun)]
  }

  function Joined(ws: seq<string>): string {
    if ws == [] then "\n" else if |ws| == 1 then ws[0] + "\n" else ws[0] + " " + Joined(ws[1..])
  }

  /** The line the monitor writes; `rtt` is the printed round trip time or "-". */
  function StatusLine(h: Hysteresis, rtt: string, loss: int, now: int): string {
    Joined(Fields(h, rtt, loss, now))
  }

  lemma {:induction false} WordThen(w: string, rest: string)
    requires Solid(w) && (rest == [] || Space(rest[0]))
    ensures WordLength(w + rest) == |w|
  {
    if |w| == 1 {
      assert (w + rest)[1..] == rest;
    } else {
      assert (w + rest)[1..] == w[1..] + rest;
      WordThen(w[1..], rest);
    }
  }

  lemma {:induction false} TokensJoined(ws: seq<string>)
    requires forall i :: 0 <= i < |ws| ==> Solid(ws[i])
    ensures Tokens(Joined(ws)) == ws
  {
    if ws == [] {
      assert "\n"[1..] == [];
    } else {
      var rest := if |ws| == 1 then "\n" else " " + Joined(ws[1..]);
      assert Joined(ws) == ws[0] + rest;
      WordThen(ws[0], rest);
      assert (ws[0] + rest)[..|ws[0]|] == ws[0] && (ws[0] + rest)[|ws[0]|..] == rest;
      TokensJoined(ws[1..]);
      if |ws| == 1 {
        assert rest[1..] == [];
        assert ws == [ws[0]];
      } else {
        assert rest[1..] == Joined(ws[1..]);
      }
    }
  }

  lemma {:induction false} NatTextParses(n: nat)
    ensures NatText(n) != [] && (forall i :: 0 <= i < |NatText(n)| ==> IsDigit(NatText(n)[i]))
    ensures ParseDigits(NatText(n)) == Some(n)
  {
    if n >= 10 {
      NatTextParses(n / 10);
      var t := NatText(n);
      assert t[..|t| - 1] == NatText(n / 10);
    }
  }

  lemma IntTextParses(n: int)
    ensures Solid(IntText(n)) && ParseInt(IntText(n)) == Some(n)
  {
    hide NatText, ParseDigits;
    var m: nat := if n < 0 then -n else n;
    NatTextParses(m);
    var t := NatText(m);
    assert IsDigit(t[0]);
    assert Solid(t) by {
      forall i | 0 <= i < |t| ensures !Space(t[i]) { assert IsDigit(t[i]); }
    }
    if n < 0 {
      assert ("-" + t)[1..] == t;
    }
  }

  lemma CountersSkip(g: Hysteresis, toks: seq<string>, t: string)
    requires t != [] && t[0] != 'o' && t[0] != 'f'
    ensures Counters(g, toks + [t]) == Counters(g, toks)
  {
    assert (toks + [t])[..|toks|] == toks;
    assert t[0] != "ok="[0];
    assert t[0] != "fail="[0];
  }

  lemma CountersOk(g: Hysteresis, toks: seq<string>, n: int)
    ensures Counters(g, toks + ["ok=" + IntText(n)]) == Counters(g, toks).(okRun := n)
  {
    hide IntText, ParseInt;
    var t := "ok=" + IntText(n);
    IntTextParses(n);
    assert (toks + [t])[..|toks|] == toks;
    assert "ok=" <= t && t[3..] == IntText(n);
  }

  lemma CountersFail(g: Hysteresis, toks: seq<string>, n: int)
    ensures Counters(g, toks + ["fail=" + IntText(n)]) == Counters(g, toks).(failRun := n)
  {
    hide IntText, ParseInt;
    var t := "fail=" + IntText(n);
    IntTextParses(n);
    assert (toks + [t])[..|toks|] == toks;
    assert "fail=" <= t && t[5..] == IntText(n);
    assert t[0] != "ok="[0];
  }

  lemma FieldsCount(g: Hysteresis, h: Hysteresis, rtt: string, loss: int, now: int)
    requires g.state == h.state
    ensures Counters(g, Fields(h, rtt, loss, now)) == h
  {
    hide Counters, IntText;
    var ts := Fields(h, rtt, loss, now);
    assert Counters(g, []) == g by { CountersNone(g); }
    CountersSkip(g, [], ts[0]);
    CountersSkip(g, [] + [ts[0]], ts[1]);
    CountersSkip(g, [] + [ts[0]] + [ts[1]], ts[2]);
    CountersSkip(g, [] + [ts[0]] + [ts[1]] + [ts[2]], ts[3]);
    CountersOk(g, [] + [ts[0]] + [ts[1]] + [ts[2]] + [ts[3]], h.okRun);
    CountersFail(g, [] + [ts[0]] + [ts[1]] + [ts[2]] + [ts[3]] + [ts[4]], h.failRun);
    assert ts == [] + [ts[0]] + [ts[1]] + [ts[2]] + [ts[3]] + [ts[4]] + [ts[5]];
  }

  lemma CountersNone(g: Hysteresis)
    ensures Counters(g, []) == g
  {
  }

  lemma FieldsSolid(h: Hysteresis, rtt: string, loss: int, now: int)
    requires forall i :: 0 <= i < |rtt| ==> !Space(rtt[i])
    ensures forall i :: 0 <= i < 6 ==> Solid(Fields(h, rtt, loss, now)[i])
  {
    hide IntText, ParseInt;
    IntTextParses(loss);
    IntTextParses(now);
    IntTextParses(h.okRun);
    IntTextParses(h.failRun);
    var ts := Fields(h, rtt, loss, now);
    assert Solid(ts[0]) && Solid(ts[1]) && Solid(ts[2]) && Solid(ts[3]) && Solid(ts[4]) && Solid(ts[5]);
  }

  /** What is written is read back: state and both counters, whatever the
      reader held before. */
  lemma StatusRoundTrip(h: Hysteresis, rtt: string, loss: int, now: int, before: Hysteresis)
    requires forall i :: 0 <= i < |rtt| ==> !Space(rtt[i])
    ensures Restored(before, StatusLine(h, rtt, loss, now)) == h
  {
    hide Counters, Tokens, Joined, IntText;
    var ts := Fields(h, rtt, loss, now);
    FieldsSolid(h, rtt, loss, now);
    TokensJoined(ts);
    FieldsCount(before.(state := h.state), h, rtt, loss, now);
    assert ts[0] == StateText(h.state);
    assert "up"[0] != "down"[0];
  }

  /** What one stateless run leaves: the file and the announced change. */
  function OnceStep(c: Cfg, file: Option<string>, ok: bool, rtt: string, loss: int, now: int)
    : (Option<string>, Option<LinkState>)
  {
    var h := if file.Some? then Restored(FRESH, file.value) else FRESH;
    var (h', change) := Recorded(c, h, ok);
    (Some(StatusLine(h', rtt, loss, now)), change)
  }

  datatype Cycle = Cycle(ok: bool, rtt: string, loss: int, now: int)

  ghost predicate Printable(cycles: seq<Cycle>) {
    forall n, i :: 0 <= n < |cycles| && 0 <= i < |cycles[n].rtt| ==> !Space(cycles[n].rtt[i])
  }

  function OnceFile(c: Cfg, cycles: seq<Cycle>): Option<string> {
    if cycles == [] then None
    else
      var y := cycles[|cycles| - 1];
      OnceStep(c, OnceFile(c, cycles[..|cycles| - 1]), y.ok, y.rtt, y.loss, y.now).0
  }

  function OnceChanges(c: Cfg, cycles: seq<Cycle>): seq<LinkState> {
    if cycles == [] then []
    else
      var y := cycles[|cycles| - 1];
      var change := OnceStep(c, OnceFile(c, cycles[..|cycles| - 1]), y.ok, y.rtt, y.loss, y.now).1;
      OnceChanges(c, cycles[..|cycles| - 1]) + if change.Some? then [change.value] else []
  }

  function Results(cycles: seq<Cycle>): (r: seq<bool>)
    ensures |r| == |cycles|
  {
    if cycles == [] then [] else Results(cycles[..|cycles| - 1]) + [cycles[|cycles| - 1].ok]
  }

  /** Separate runs, each reloading and rewriting the file, announce exactly
      the changes of one monitor that stays in memory. */
  lemma {:induction false} OnceRefinesDaemon(c: Cfg, cycles: seq<Cycle>)
    requires Printable(cycles)
    ensures OnceChanges(c, cycles) == Changes(c, Results(cycles))
    ensures (if OnceFile(c, cycles).Some? then Restored(FRESH, OnceFile(c, cycles).value) else FRESH)
         == Trace(c, Results(cycles))
  {
    if cycles != [] {
      var pre, y := cycles[..|cycles| - 1], cycles[|cycles| - 1];
      OnceRefinesDaemon(c, pre);
      assert Results(cycles)[..|cycles| - 1] == Results(pre);
      var h := Trace(c, Results(pre));
      StatusRoundTrip(Recorded(c, h, y.ok).0, y.rtt, y.loss, y.now, FRESH);
    }
  }
}
