/** Port knocking: the emitted rule list, the automaton it implements, and
    what every run of packets, expiries and service connections keeps. */
module Knock {
  import opened Wrappers

  datatype Proto = Tcp | Udp

  datatype Step = Step(port: nat, proto: Proto)

  type Addr = nat

  /** One KNOCK or KNOCKSEQUENCE rule. `alts` counts the source-zone
      alternatives every step fans out over. */
  datatype Spec = Spec(steps: seq<Step>, alts: nat, reusable: bool) {
    ghost predicate Valid() {
      |steps| >= 1 && alts >= 1
    }
  }

  /** Membership of `src` in the stage set `stage` of knock rule `knock`. */
  datatype Entry = Entry(knock: nat, stage: nat, src: Addr)

  /** The kernel's dynamic sets, all of them in one value. */
  type Sets = set<Entry>

  /** The source and destination matches of alternative `alt` of rule `knock`. */
  datatype Hit = Hit(knock: nat, alt: nat)

  datatype Packet = Packet(src: Addr, step: Step, isNew: bool, hits: set<Hit>)

  /** One emitted prerouting rule; each ends in a drop. */
  datatype Rule = Rule(knock: nat, alt: nat, line: Line)

  /** What a rule does for one step, whichever source alternative matched. */
  datatype Line = Line(guard: Option<nat>, step: Step, deletes: set<nat>, add: Option<nat>)

  // ------------------------------------------------------------ emission

  function Below(n: nat): (r: set<nat>)
    ensures forall i: nat :: i in r <==> i < n
  {
    if n == 0 then {} else Below(n - 1) + {n - 1}
  }

  function FanOut(k: nat, alts: nat, l: Line): seq<Rule>
    decreases alts
  {
    if alts == 0 then [] else FanOut(k, alts - 1, l) + [Rule(k, alts - 1, l)]
  }

  function FanOutAll(k: nat, alts: nat, ls: seq<Line>): seq<Rule> {
    if ls == [] then [] else FanOut(k, alts, ls[0]) + FanOutAll(k, alts, ls[1..])
  }

  function Restart(s: Spec): Line
    requires s.Valid()
  {
    Line(None, s.steps[0], Below(|s.steps|), Some(0))
  }

  function Advance(s: Spec, i: nat): Line
    requires 1 <= i < |s.steps|
  {
    Line(Some(i - 1), s.steps[i], Below(i), Some(i))
  }

  function Stay(s: Spec, i: nat): Line
    requires i < |s.steps|
  {
    Line(Some(i), s.steps[i], Below(|s.steps|) - {i}, Some(i))
  }

  function Reset(s: Spec, i: nat, j: nat): Line
    requires i < |s.steps| && j < |s.steps|
  {
    Line(Some(i), s.steps[j], Below(|s.steps|), if s.steps[j] == s.steps[0] then Some(0) else None)
  }

  /** The advance lines of steps 1 .. n-1. */
  function Advances(s: Spec, n: nat): seq<Line>
    requires n <= |s.steps|
  {
    if n <= 1 then [] else Advances(s, n - 1) + [Advance(s, n - 1)]
  }

  /** The reset lines of stage i for the first n steps. */
  function Resets(s: Spec, i: nat, n: nat): seq<Line>
    requires i < |s.steps| && n <= |s.steps|
  {
    if n == 0 then [] else
      Resets(s, i, n - 1) + if s.steps[n - 1] == s.steps[i] then [] else [Reset(s, i, n - 1)]
  }

  /** The stay-or-reset lines of the first n stages. */
  function Tails(s: Spec, n: nat): seq<Line>
    requires n <= |s.steps|
  {
    if n == 0 then [] else Tails(s, n - 1) + ([Stay(s, n - 1)] + Resets(s, n - 1, |s.steps|))
  }

  function Lines(s: Spec): seq<Line>
    requires s.Valid()
  {
    [Restart(s)] + Advances(s, |s.steps|) + Tails(s, |s.steps|)
  }

  function RulesOf(k: nat, s: Spec): seq<Rule>
    requires s.Valid()
  {
    FanOutAll(k, s.alts, Lines(s))
  }

  ghost predicate AllValid(specs: seq<Spec>) {
    forall k :: 0 <= k < |specs| ==> specs[k].Valid()
  }

  /** The whole prerouting chain of the first n knock rules. */
  function ChainRules(specs: seq<Spec>, n: nat): seq<Rule>
    requires n <= |specs| && AllValid(specs)
  {
    if n == 0 then [] else ChainRules(specs, n - 1) + RulesOf(n - 1, specs[n - 1])
  }

  lemma {:induction false} FanOutAllConcat(k: nat, alts: nat, xs: seq<Line>, ys: seq<Line>)
    ensures FanOutAll(k, alts, xs + ys) == FanOutAll(k, alts, xs) + FanOutAll(k, alts, ys)
  {
    if xs == [] {
      assert xs + ys == ys;
    } else {
      assert (xs + ys)[1..] == xs[1..] + ys;
      FanOutAllConcat(k, alts, xs[1..], ys);
    }
  }

  lemma FanOutOne(k: nat, alts: nat, xs: seq<Line>, l: Line)
    ensures FanOutAll(k, alts, xs + [l]) == FanOutAll(k, alts, xs) + FanOut(k, alts, l)
  {
    FanOutAllConcat(k, alts, xs, [l]);
    assert [l][1..] == [];
  }

  lemma FanOutAppend(base: seq<Rule>, k: nat, alts: nat, xs: seq<Line>, ys: seq<Line>)
    ensures base + FanOutAll(k, alts, xs) + FanOutAll(k, alts, ys) == base + FanOutAll(k, alts, xs + ys)
  {
    FanOutAllConcat(k, alts, xs, ys);
    assert base + FanOutAll(k, alts, xs) + FanOutAll(k, alts, ys)
        == base + (FanOutAll(k, alts, xs) + FanOutAll(k, alts, ys));
  }

  /** The emitter: rule lines are appended to `lines` step by step. */
  class Emitter {
    var lines: seq<Rule>

    constructor ()
      ensures lines == []
    {
      lines := [];
    }

    method EmitRule(k: nat, s: Spec, l: Line)
      modifies this
      ensures lines == old(lines) + FanOut(k, s.alts, l)
    {
      for a := 0 to s.alts
        invariant lines == old(lines) + FanOut(k, a, l)
      {
        lines := lines + [Rule(k, a, l)];
      }
    }

    method EmitStage(k: nat, s: Spec, i: nat)
      requires i < |s.steps|
      modifies this
      ensures lines == old(lines) + FanOutAll(k, s.alts, [Stay(s, i)] + Resets(s, i, |s.steps|))
    {
      ghost var done := [Stay(s, i)];
      EmitRule(k, s, Stay(s, i));
      FanOutOne(k, s.alts, [], Stay(s, i));
      assert [] + [Stay(s, i)] == done;
      for j := 0 to |s.steps|
        invariant done == [Stay(s, i)] + Resets(s, i, j)
        invariant lines == old(lines) + FanOutAll(k, s.alts, done)
      {
        if s.steps[j] != s.steps[i] {
          EmitRule(k, s, Reset(s, i, j));
          FanOutOne(k, s.alts, done, Reset(s, i, j));
          done := done + [Reset(s, i, j)];
        }
      }
    }

    method EmitAdvances(k: nat, s: Spec)
      requires s.Valid()
      modifies this
      ensures lines == old(lines) + FanOutAll(k, s.alts, Advances(s, |s.steps|))
    {
      for i := 1 to |s.steps|
        invariant lines == old(lines) + FanOutAll(k, s.alts, Advances(s, i))
      {
        EmitRule(k, s, Advance(s, i));
        FanOutOne(k, s.alts, Advances(s, i), Advance(s, i));
      }
    }

    method EmitStages(k: nat, s: Spec)
      requires s.Valid()
      modifies this
      ensures lines == old(lines) + FanOutAll(k, s.alts, Tails(s, |s.steps|))
    {
      for i := 0 to |s.steps|
        invariant lines == old(lines) + FanOutAll(k, s.alts, Tails(s, i))
      {
        EmitStage(k, s, i);
        FanOutAppend(old(lines), k, s.alts, Tails(s, i), [Stay(s, i)] + Resets(s, i, |s.steps|));
      }
    }

    method EmitKnock(k: nat, s: Spec)
      requires s.Valid()
      modifies this
      ensures lines == old(lines) + RulesOf(k, s)
    {
      EmitRule(k, s, Restart(s));
      FanOutOne(k, s.alts, [], Restart(s));
      assert [] + [Restart(s)] == [Restart(s)];
      assert lines == old(lines) + FanOutAll(k, s.alts, [Restart(s)]);
      EmitAdvances(k, s);
      FanOutAppend(old(lines), k, s.alts, [Restart(s)], Advances(s, |s.steps|));
      EmitStages(k, s);
      FanOutAppend(old(lines), k, s.alts, [Restart(s)] + Advances(s, |s.steps|), Tails(s, |s.steps|));
    }

    method Prerouting(specs: seq<Spec>)
      requires AllValid(specs)
      modifies this
      ensures lines == old(lines) + ChainRules(specs, |specs|)
    {
      for k := 0 to |specs|
        invariant lines == old(lines) + ChainRules(specs, k)
      {
        EmitKnock(k, specs[k]);
      }
    }
  }

  // ----------------------------------------------------- kernel semantics

  ghost predicate Matches(r: Rule, p: Packet, S: Sets) {
    && p.isNew && p.step == r.line.step && Hit(r.knock, r.alt) in p.hits
    && (r.line.guard.Some? ==> Entry(r.knock, r.line.guard.value, p.src) in S)
  }

  ghost function Mutate(k: nat, l: Line, a: Addr, S: Sets): Sets {
    (set e | e in S && !(e.knock == k && e.src == a && e.stage in l.deletes))
    + (if l.add.Some? then {Entry(k, l.add.value, a)} else {})
  }

  /** First match wins: every rule drops the packet. */
  ghost function Chain(rules: seq<Rule>, p: Packet, S: Sets): Sets {
    if rules == [] then S
    else if Matches(rules[0], p, S) then Mutate(rules[0].knock, rules[0].line, p.src, S)
    else Chain(rules[1..], p, S)
  }

  ghost predicate Fires(rules: seq<Rule>, p: Packet, S: Sets) {
    exists r :: r in rules && Matches(r, p, S)
  }

  lemma {:induction false} ChainConcat(r1: seq<Rule>, r2: seq<Rule>, p: Packet, S: Sets)
    ensures Chain(r1 + r2, p, S) == if Fires(r1, p, S) then Chain(r1, p, S) else Chain(r2, p, S)
    ensures Fires(r1 + r2, p, S) <==> Fires(r1, p, S) || Fires(r2, p, S)
  {
    if r1 == [] {
      assert r1 + r2 == r2;
    } else {
      assert (r1 + r2)[1..] == r1[1..] + r2;
      ChainConcat(r1[1..], r2, p, S);
    }
  }

  ghost predicate Qualifies(k: nat, s: Spec, p: Packet) {
    p.isNew && exists a :: 0 <= a < s.alts && Hit(k, a) in p.hits
  }

  // A line seen from one source: its guard holds and its port was hit.
  ghost predicate LineFires(k: nat, l: Line, p: Packet, S: Sets) {
    p.step == l.step && (l.guard.Some? ==> Entry(k, l.guard.value, p.src) in S)
  }

  ghost predicate LinesFire(k: nat, ls: seq<Line>, p: Packet, S: Sets) {
    exists l :: l in ls && LineFires(k, l, p, S)
  }

  ghost function LineChain(k: nat, ls: seq<Line>, p: Packet, S: Sets): Sets {
    if ls == [] then S
    else if LineFires(k, ls[0], p, S) then Mutate(k, ls[0], p.src, S)
    else LineChain(k, ls[1..], p, S)
  }

  lemma {:induction false} FanOutFires(k: nat, alts: nat, l: Line, p: Packet, S: Sets)
    ensures Fires(FanOut(k, alts, l), p, S) <==>
            p.isNew && (exists a :: 0 <= a < alts && Hit(k, a) in p.hits) && LineFires(k, l, p, S)
    ensures Fires(FanOut(k, alts, l), p, S) ==> Chain(FanOut(k, alts, l), p, S) == Mutate(k, l, p.src, S)
  {
    if alts > 0 {
      var r := Rule(k, alts - 1, l);
      FanOutFires(k, alts - 1, l, p, S);
      ChainConcat(FanOut(k, alts - 1, l), [r], p, S);
      assert Fires([r], p, S) <==> Matches(r, p, S) by {
        assert r in [r];
      }
    }
  }

  /** Fan-out over source alternatives changes nothing but who qualifies. */
  lemma {:induction false} FanOutAllChain(k: nat, s: Spec, ls: seq<Line>, p: Packet, S: Sets)
    ensures Fires(FanOutAll(k, s.alts, ls), p, S) <==> Qualifies(k, s, p) && LinesFire(k, ls, p, S)
    ensures Chain(FanOutAll(k, s.alts, ls), p, S)
         == if Qualifies(k, s, p) then LineChain(k, ls, p, S) else S
  {
    if ls != [] {
      FanOutFires(k, s.alts, ls[0], p, S);
      FanOutAllChain(k, s, ls[1..], p, S);
      ChainConcat(FanOut(k, s.alts, ls[0]), FanOutAll(k, s.alts, ls[1..]), p, S);
      assert forall l :: l in ls <==> l == ls[0] || l in ls[1..];
    }
  }

  // ------------------------------------------------------- the automaton

  /** What one qualifying packet does to a source's stage. */
  function Next(s: Spec, cur: Option<nat>, step: Step): Option<nat>
    requires s.Valid() && (cur.Some? ==> cur.value < |s.steps|)
  {
    if step == s.steps[0] then Some(0)
    else if cur.None? then None
    else if cur.value + 1 < |s.steps| && step == s.steps[cur.value + 1] then Some(cur.value + 1)
    else if step == s.steps[cur.value] then cur
    else if step in s.steps then None
    else cur
  }

  /** The source is in exactly the stage `cur` of knock rule k, or in none. */
  ghost predicate At(k: nat, S: Sets, a: Addr, cur: Option<nat>) {
    forall i: nat :: Entry(k, i, a) in S <==> cur == Some(i)
  }

  ghost predicate Bounded(s: Spec, cur: Option<nat>) {
    cur.Some? ==> cur.value < |s.steps|
  }

  lemma {:induction false} AdvancesFire(k: nat, s: Spec, n: nat, p: Packet, S: Sets, cur: Option<nat>)
    requires s.Valid() && n <= |s.steps| && At(k, S, p.src, cur)
    ensures LinesFire(k, Advances(s, n), p, S) <==>
            cur.Some? && cur.value + 1 < n && p.step == s.steps[cur.value + 1]
    ensures LinesFire(k, Advances(s, n), p, S) ==>
            LineChain(k, Advances(s, n), p, S) == Mutate(k, Advance(s, cur.value + 1), p.src, S)
  {
    if n > 1 {
      AdvancesFire(k, s, n - 1, p, S, cur);
      LineConcat(k, Advances(s, n - 1), [Advance(s, n - 1)], p, S);
    }
  }

  lemma {:induction false} LineConcat(k: nat, xs: seq<Line>, ys: seq<Line>, p: Packet, S: Sets)
    ensures LinesFire(k, xs + ys, p, S) <==> LinesFire(k, xs, p, S) || LinesFire(k, ys, p, S)
    ensures LineChain(k, xs + ys, p, S)
         == if LinesFire(k, xs, p, S) then LineChain(k, xs, p, S) else LineChain(k, ys, p, S)
  {
    if xs == [] {
      assert xs + ys == ys;
    } else {
      assert (xs + ys)[1..] == xs[1..] + ys;
      LineConcat(k, xs[1..], ys, p, S);
    }
  }

  lemma LineSingle(k: nat, l: Line, p: Packet, S: Sets)
    ensures LinesFire(k, [l], p, S) <==> LineFires(k, l, p, S)
    ensures LineFires(k, l, p, S) ==> LineChain(k, [l], p, S) == Mutate(k, l, p.src, S)
  {
    assert l in [l];
  }

  lemma {:induction false} ResetsFire(k: nat, s: Spec, i: nat, n: nat, p: Packet, S: Sets, cur: Option<nat>)
    requires s.Valid() && i < |s.steps| && n <= |s.steps| && At(k, S, p.src, cur)
    ensures LinesFire(k, Resets(s, i, n), p, S) <==>
            cur == Some(i) && p.step in s.steps[..n] && p.step != s.steps[i]
    ensures LinesFire(k, Resets(s, i, n), p, S) && p.step != s.steps[0] ==>
            LineChain(k, Resets(s, i, n), p, S) ==
              Mutate(k, Line(None, p.step, Below(|s.steps|), None), p.src, S)
  {
    if n > 0 {
      ResetsFire(k, s, i, n - 1, p, S, cur);
      assert s.steps[..n] == s.steps[..n - 1] + [s.steps[n - 1]];
      if s.steps[n - 1] != s.steps[i] {
        LineSingle(k, Reset(s, i, n - 1), p, S);
        LineConcat(k, Resets(s, i, n - 1), [Reset(s, i, n - 1)], p, S);
      } else {
        assert Resets(s, i, n) == Resets(s, i, n - 1);
      }
    }
  }

  lemma TailFires(k: nat, s: Spec, i: nat, p: Packet, S: Sets, cur: Option<nat>)
    requires s.Valid() && i < |s.steps| && At(k, S, p.src, cur) && p.step != s.steps[0]
    ensures var ls := [Stay(s, i)] + Resets(s, i, |s.steps|);
      && (LinesFire(k, ls, p, S) <==> cur == Some(i) && p.step in s.steps)
      && (LinesFire(k, ls, p, S) ==>
          LineChain(k, ls, p, S) ==
            if p.step == s.steps[i] then Mutate(k, Stay(s, i), p.src, S)
            else Mutate(k, Line(None, p.step, Below(|s.steps|), None), p.src, S))
  {
    hide LineChain, LinesFire, Resets, Mutate, Below;
    ResetsFire(k, s, i, |s.steps|, p, S, cur);
    assert s.steps[..|s.steps|] == s.steps;
    LineSingle(k, Stay(s, i), p, S);
    LineConcat(k, [Stay(s, i)], Resets(s, i, |s.steps|), p, S);
  }

  lemma {:induction false} TailsFire(k: nat, s: Spec, n: nat, p: Packet, S: Sets, cur: Option<nat>)
    requires s.Valid() && n <= |s.steps| && At(k, S, p.src, cur) && Bounded(s, cur)
    requires p.step != s.steps[0]
    ensures LinesFire(k, Tails(s, n), p, S) <==> cur.Some? && cur.value < n && p.step in s.steps
    ensures LinesFire(k, Tails(s, n), p, S) ==>
            LineChain(k, Tails(s, n), p, S) ==
              if p.step == s.steps[cur.value] then Mutate(k, Stay(s, cur.value), p.src, S)
              else Mutate(k, Line(None, p.step, Below(|s.steps|), None), p.src, S)
  {
    hide LineChain, Resets, Mutate, Below, Stay, At;
    if n > 0 {
      TailsFire(k, s, n - 1, p, S, cur);
      TailFires(k, s, n - 1, p, S, cur);
      LineConcat(k, Tails(s, n - 1), [Stay(s, n - 1)] + Resets(s, n - 1, |s.steps|), p, S);
    }
  }

  /** The lines fire exactly on s0, or on any step port from a staged source. */
  ghost predicate Reacts(s: Spec, cur: Option<nat>, step: Step)
    requires s.Valid()
  {
    step == s.steps[0] || (cur.Some? && step in s.steps)
  }

  lemma MutateMoves(k: nat, l: Line, a: Addr, S: Sets, cur: Option<nat>)
    requires At(k, S, a, cur) && (cur.Some? ==> cur.value in l.deletes || l.add == cur)
    ensures At(k, Mutate(k, l, a, S), a, l.add)
    ensures SameElsewhere(k, a, S, Mutate(k, l, a, S))
  {
  }

  ghost predicate SameElsewhere(k: nat, a: Addr, S: Sets, S': Sets) {
    forall e: Entry :: e.knock != k || e.src != a ==> (e in S' <==> e in S)
  }

  /** The one line of a rule that acts on a source in stage `cur`. */
  ghost function Acting(s: Spec, cur: Option<nat>, step: Step): Line
    requires s.Valid() && Bounded(s, cur) && Reacts(s, cur, step)
  {
    if step == s.steps[0] then Restart(s)
    else if cur.value + 1 < |s.steps| && step == s.steps[cur.value + 1] then Advance(s, cur.value + 1)
    else if step == s.steps[cur.value] then Stay(s, cur.value)
    else Line(None, step, Below(|s.steps|), None)
  }

  lemma LinesAct(k: nat, s: Spec, p: Packet, S: Sets, cur: Option<nat>)
    requires s.Valid() && At(k, S, p.src, cur) && Bounded(s, cur)
    ensures LinesFire(k, Lines(s), p, S) <==> Reacts(s, cur, p.step)
    ensures Reacts(s, cur, p.step) ==>
            LineChain(k, Lines(s), p, S) == Mutate(k, Acting(s, cur, p.step), p.src, S)
  {
    hide LineChain, LinesFire, Advances, Tails, Mutate, Below, Stay, Advance;
    var n := |s.steps|;
    LineSingle(k, Restart(s), p, S);
    AdvancesFire(k, s, n, p, S, cur);
    LineConcat(k, [Restart(s)], Advances(s, n), p, S);
    LineConcat(k, [Restart(s)] + Advances(s, n), Tails(s, n), p, S);
    if p.step != s.steps[0] {
      TailsFire(k, s, n, p, S, cur);
    }
  }

  lemma LinesStep(k: nat, s: Spec, p: Packet, S: Sets, cur: Option<nat>)
    requires s.Valid() && At(k, S, p.src, cur) && Bounded(s, cur)
    ensures LinesFire(k, Lines(s), p, S) <==> Reacts(s, cur, p.step)
    ensures var S' := LineChain(k, Lines(s), p, S);
      && At(k, S', p.src, Next(s, cur, p.step))
      && SameElsewhere(k, p.src, S, S')
  {
    hide LineChain, LinesFire, Lines, Mutate;
    LinesAct(k, s, p, S, cur);
    if Reacts(s, cur, p.step) {
      MutateMoves(k, Acting(s, cur, p.step), p.src, S, cur);
    } else {
      LineIdle(k, Lines(s), p, S);
    }
  }

  lemma {:induction false} LineIdle(k: nat, ls: seq<Line>, p: Packet, S: Sets)
    requires !LinesFire(k, ls, p, S)
    ensures LineChain(k, ls, p, S) == S
  {
    if ls != [] {
      assert ls[0] in ls;
      LineIdle(k, ls[1..], p, S);
    }
  }

  // ------------------------------------------------- the chain of all rules

  /** Every entry is a stage of a known rule, and no source is in two stages of one rule. */
  ghost predicate Staged(specs: seq<Spec>, S: Sets) {
    && (forall e :: e in S ==> e.knock < |specs| && e.stage < |specs[e.knock].steps|)
    && (forall e, f :: e in S && f in S && e.knock == f.knock && e.src == f.src ==> e == f)
  }

  ghost function StageOf(k: nat, a: Addr, S: Sets): Option<nat> {
    if i: nat :| Entry(k, i, a) in S then Some(i) else None
  }

  lemma StagedAt(specs: seq<Spec>, k: nat, a: Addr, S: Sets)
    requires Staged(specs, S)
    ensures At(k, S, a, StageOf(k, a, S))
    ensures k < |specs| ==> Bounded(specs[k], StageOf(k, a, S))
  {
  }

  /** The emitted list of one rule, read first-match, is the automaton. */
  lemma KnockRefines(specs: seq<Spec>, k: nat, p: Packet, S: Sets)
    requires AllValid(specs) && Staged(specs, S) && k < |specs|
    ensures Bounded(specs[k], StageOf(k, p.src, S))
    ensures var S' := Chain(RulesOf(k, specs[k]), p, S);
      && Staged(specs, S')
      && SameElsewhere(k, p.src, S, S')
      && StageOf(k, p.src, S')
         == if Qualifies(k, specs[k], p) then Next(specs[k], StageOf(k, p.src, S), p.step)
            else StageOf(k, p.src, S)
    ensures Fires(RulesOf(k, specs[k]), p, S) <==>
            Qualifies(k, specs[k], p) && Reacts(specs[k], StageOf(k, p.src, S), p.step)
  {
    StagedAt(specs, k, p.src, S);
    var cur := StageOf(k, p.src, S);
    FanOutAllChain(k, specs[k], Lines(specs[k]), p, S);
    LinesStep(k, specs[k], p, S, cur);
    var S' := Chain(RulesOf(k, specs[k]), p, S);
    if Qualifies(k, specs[k], p) {
      var next := Next(specs[k], cur, p.step);
      assert At(k, S', p.src, next);
      assert next.Some? ==> Entry(k, next.value, p.src) in S';
      forall e, f | e in S' && f in S' && e.knock == f.knock && e.src == f.src
        ensures e == f
      {
        if e.knock == k && e.src == p.src {
          assert e == Entry(k, e.stage, p.src) && f == Entry(k, f.stage, p.src);
        }
      }
      forall e | e in S'
        ensures e.knock < |specs| && e.stage < |specs[e.knock].steps|
      {
        if e.knock == k && e.src == p.src {
          assert e == Entry(k, e.stage, p.src);
        }
      }
    }
  }

  /** Rule k takes the packet if no earlier rule does. */
  ghost predicate Wants(specs: seq<Spec>, k: nat, p: Packet, S: Sets)
    requires AllValid(specs) && k < |specs|
  {
    Qualifies(k, specs[k], p) && Reacts(specs[k], StageOf(k, p.src, S), p.step)
  }

  lemma RuleFires(specs: seq<Spec>, k: nat, p: Packet, S: Sets)
    requires AllValid(specs) && Staged(specs, S) && k < |specs|
    ensures Fires(RulesOf(k, specs[k]), p, S) <==> Wants(specs, k, p, S)
    ensures !Wants(specs, k, p, S) ==> Chain(RulesOf(k, specs[k]), p, S) == S
  {
    KnockRefines(specs, k, p, S);
    if !Wants(specs, k, p, S) {
      ChainIdle(RulesOf(k, specs[k]), p, S);
    }
  }

  /** The first of the first n rules that wants the packet. */
  ghost function Winner(specs: seq<Spec>, n: nat, p: Packet, S: Sets): (w: Option<nat>)
    requires AllValid(specs) && n <= |specs|
    ensures w.Some? ==> w.value < n
  {
    if n == 0 then None
    else
      var w := Winner(specs, n - 1, p, S);
      if w.Some? then w else if Wants(specs, n - 1, p, S) then Some(n - 1) else None
  }

  lemma WinnerFirst(specs: seq<Spec>, n: nat, p: Packet, S: Sets)
    requires AllValid(specs) && n <= |specs|
    ensures var w := Winner(specs, n, p, S);
      && (w.Some? ==> Wants(specs, w.value, p, S))
      && forall j :: 0 <= j < (if w.Some? then w.value else n) ==> !Wants(specs, j, p, S)
  {
  }

  /** Every rule drops what it takes, so only the first rule that wants the packet sees it. */
  lemma {:induction false} ChainFirst(specs: seq<Spec>, n: nat, p: Packet, S: Sets)
    requires AllValid(specs) && Staged(specs, S) && n <= |specs|
    ensures var w := Winner(specs, n, p, S);
      && (Fires(ChainRules(specs, n), p, S) <==> w.Some?)
      && Chain(ChainRules(specs, n), p, S)
         == if w.Some? then Chain(RulesOf(w.value, specs[w.value]), p, S) else S
  {
    hide Chain, ChainRules, RulesOf, Wants, Fires;
    if n == 0 {
      ChainNone(specs, p, S);
    } else {
      ChainFirst(specs, n - 1, p, S);
      RuleFires(specs, n - 1, p, S);
      ChainLast(specs, n, p, S);
    }
  }

  lemma ChainNone(specs: seq<Spec>, p: Packet, S: Sets)
    requires AllValid(specs)
    ensures !Fires(ChainRules(specs, 0), p, S) && Chain(ChainRules(specs, 0), p, S) == S
  {
  }

  lemma ChainLast(specs: seq<Spec>, n: nat, p: Packet, S: Sets)
    requires AllValid(specs) && 1 <= n <= |specs|
    ensures Fires(ChainRules(specs, n), p, S) <==>
            Fires(ChainRules(specs, n - 1), p, S) || Fires(RulesOf(n - 1, specs[n - 1]), p, S)
    ensures Chain(ChainRules(specs, n), p, S)
         == if Fires(ChainRules(specs, n - 1), p, S) then Chain(ChainRules(specs, n - 1), p, S)
            else Chain(RulesOf(n - 1, specs[n - 1]), p, S)
  {
    ChainConcat(ChainRules(specs, n - 1), RulesOf(n - 1, specs[n - 1]), p, S);
  }

  lemma {:induction false} ChainIdle(rules: seq<Rule>, p: Packet, S: Sets)
    requires !Fires(rules, p, S)
    ensures Chain(rules, p, S) == S
  {
    if rules != [] {
      assert rules[0] in rules;
      ChainIdle(rules[1..], p, S);
    }
  }

  /** No step is shared by two knock rules. */
  ghost predicate Apart(specs: seq<Spec>) {
    forall j, k :: 0 <= j < k < |specs| ==> forall x :: x in specs[j].steps ==> x !in specs[k].steps
  }

  /** Rule k's automaton moves as if it were alone. */
  ghost predicate Alone(specs: seq<Spec>, k: nat, p: Packet, S: Sets, S': Sets)
    requires AllValid(specs) && k < |specs|
  {
    Bounded(specs[k], StageOf(k, p.src, S)) &&
    StageOf(k, p.src, S') ==
      if Qualifies(k, specs[k], p) then Next(specs[k], StageOf(k, p.src, S), p.step) else StageOf(k, p.src, S)
  }

  ghost predicate Parallel(specs: seq<Spec>, p: Packet, S: Sets)
    requires AllValid(specs)
  {
    forall k :: 0 <= k < |specs| ==> Alone(specs, k, p, S, Chain(ChainRules(specs, |specs|), p, S))
  }

  lemma StageUnchanged(j: nat, k: nat, a: Addr, specs: seq<Spec>, S: Sets, S': Sets)
    requires j != k && SameElsewhere(j, a, S, S') && Staged(specs, S) && Staged(specs, S')
    ensures StageOf(k, a, S') == StageOf(k, a, S)
  {
    StagedAt(specs, k, a, S);
    StagedAt(specs, k, a, S');
    assert forall i: nat :: Entry(k, i, a) in S <==> Entry(k, i, a) in S';
  }

  /** A rule that does not want the packet would not have moved on it. */
  lemma UnwantedStill(specs: seq<Spec>, k: nat, p: Packet, S: Sets, S': Sets)
    requires AllValid(specs) && Staged(specs, S) && k < |specs|
    requires !Wants(specs, k, p, S) && StageOf(k, p.src, S') == StageOf(k, p.src, S)
    ensures Alone(specs, k, p, S, S')
  {
    StagedAt(specs, k, p.src, S);
  }

  /** One packet through the whole chain: the state stays well staged and only
      the packet's own source moves. */
  lemma ChainStep(specs: seq<Spec>, p: Packet, S: Sets)
    requires AllValid(specs) && Staged(specs, S)
    ensures var S' := Chain(ChainRules(specs, |specs|), p, S);
      Staged(specs, S') && forall e: Entry :: e.src != p.src ==> (e in S' <==> e in S)
  {
    ChainFirst(specs, |specs|, p, S);
    var w := Winner(specs, |specs|, p, S);
    if w.Some? {
      KnockRefines(specs, w.value, p, S);
    }
  }

  lemma ApartUnwanted(specs: seq<Spec>, j: nat, k: nat, p: Packet, S: Sets)
    requires AllValid(specs) && Apart(specs) && j < |specs| && k < |specs| && j != k
    requires Wants(specs, k, p, S)
    ensures !Wants(specs, j, p, S)
  {
    assert p.step in specs[k].steps;
    if j < k { assert p.step !in specs[j].steps; } else { assert p.step !in specs[j].steps; }
  }

  lemma ApartParallel(specs: seq<Spec>, p: Packet, S: Sets)
    requires AllValid(specs) && Apart(specs) && Staged(specs, S)
    ensures Parallel(specs, p, S)
  {
    ChainFirst(specs, |specs|, p, S);
    WinnerFirst(specs, |specs|, p, S);
    var S' := Chain(ChainRules(specs, |specs|), p, S);
    var w := Winner(specs, |specs|, p, S);
    forall k | 0 <= k < |specs|
      ensures Alone(specs, k, p, S, S')
    {
      if w.None? {
        UnwantedStill(specs, k, p, S, S');
      } else {
        KnockRefines(specs, w.value, p, S);
        if k != w.value {
          ApartUnwanted(specs, k, w.value, p, S);
          StageUnchanged(w.value, k, p.src, specs, S, S');
          UnwantedStill(specs, k, p, S, S');
        }
      }
    }
  }

  /** Knock rules run in parallel on every packet and state exactly when they
      share no step: a shared port is swallowed by the earlier rule. */
  lemma ParallelExactly(specs: seq<Spec>)
    requires AllValid(specs)
    ensures Apart(specs) <==> forall p, S :: Staged(specs, S) ==> Parallel(specs, p, S)
  {
    if Apart(specs) {
      forall p, S | Staged(specs, S) ensures Parallel(specs, p, S) {
        ApartParallel(specs, p, S);
      }
    } else {
      var j, k, x :| 0 <= j < k < |specs| && x in specs[j].steps && x in specs[k].steps;
      SharedStepSwallowed(specs, j, k, x);
    }
  }

  lemma SharedStepSwallowed(specs: seq<Spec>, j: nat, k: nat, x: Step)
    requires AllValid(specs) && j < k < |specs| && x in specs[j].steps && x in specs[k].steps
    ensures exists p, S :: Staged(specs, S) && !Parallel(specs, p, S)
  {
    var i := 0;
    while specs[k].steps[i] != x
      invariant 0 <= i < |specs[k].steps|
      invariant forall h :: 0 <= h < i ==> specs[k].steps[h] != x
      invariant x in specs[k].steps
      decreases |specs[k].steps| - i
    {
      i := i + 1;
    }
    SharedAt(specs, j, k, i, x, Packet(0, x, true, {Hit(j, 0), Hit(k, 0)}),
             {Entry(j, 0, 0)} + if i == 0 then {} else {Entry(k, i - 1, 0)});
  }

  lemma SharedAt(specs: seq<Spec>, j: nat, k: nat, i: nat, x: Step, p: Packet, S: Sets)
    requires AllValid(specs) && j < k < |specs| && x in specs[j].steps
    requires i < |specs[k].steps| && specs[k].steps[i] == x
    requires forall h :: 0 <= h < i ==> specs[k].steps[h] != x
    requires p == Packet(0, x, true, {Hit(j, 0), Hit(k, 0)})
    requires S == {Entry(j, 0, 0)} + if i == 0 then {} else {Entry(k, i - 1, 0)}
    ensures Staged(specs, S) && !Parallel(specs, p, S)
  {
    assert Staged(specs, S);
    assert StageOf(j, 0, S) == Some(0) by {
      assert Entry(j, 0, 0) in S;
    }
    assert StageOf(k, 0, S) == if i == 0 then None else Some(i - 1) by {
      if i > 0 { assert Entry(k, i - 1, 0) in S; }
    }
    assert Qualifies(j, specs[j], p) && Qualifies(k, specs[k], p) by {
      assert Hit(j, 0) in p.hits && Hit(k, 0) in p.hits;
    }
    SwallowedAt(specs, j, k, p, S);
    assert Next(specs[k], StageOf(k, 0, S), x) == Some(i);
    assert !Alone(specs, k, p, S, Chain(ChainRules(specs, |specs|), p, S));
  }

  /** Rule j takes the packet, so rule k > j keeps its stage. */
  lemma SwallowedAt(specs: seq<Spec>, j: nat, k: nat, p: Packet, S: Sets)
    requires AllValid(specs) && Staged(specs, S) && j < k < |specs|
    requires Wants(specs, j, p, S)
    requires forall h :: 0 <= h < j ==> !Wants(specs, h, p, S)
    ensures StageOf(k, p.src, Chain(ChainRules(specs, |specs|), p, S)) == StageOf(k, p.src, S)
  {
    hide Chain, ChainRules, RulesOf, Wants;
    ChainFirst(specs, |specs|, p, S);
    WinnerFirst(specs, |specs|, p, S);
    KnockRefines(specs, j, p, S);
    StageUnchanged(j, k, p.src, specs, S, Chain(RulesOf(j, specs[j]), p, S));
  }

  // ------------------------------------------------------------ whole runs

  /** What can happen to the sets: a packet in prerouting, an element timing
      out, or a new connection of `src` reaching the gate of rule `knock`. */
  datatype Event = Arrive(p: Packet) | Expire(e: Entry) | Connect(knock: nat, src: Addr)

  /** The gate accepts a source that is in the final stage set. */
  ghost predicate Accepts(specs: seq<Spec>, ev: Event, S: Sets)
    requires AllValid(specs)
  {
    ev.Connect? && ev.knock < |specs| && Entry(ev.knock, |specs[ev.knock].steps| - 1, ev.src) in S
  }

  ghost function After(specs: seq<Spec>, ev: Event, S: Sets): Sets
    requires AllValid(specs)
  {
    match ev
    case Arrive(p) => Chain(ChainRules(specs, |specs|), p, S)
    case Expire(e) => S - {e}
    case Connect(k, a) =>
      if Accepts(specs, ev, S) && !specs[k].reusable
      then Mutate(k, Line(None, specs[k].steps[0], Below(|specs[k].steps|), None), a, S)
      else S
  }

  ghost function Run(specs: seq<Spec>, evs: seq<Event>, S: Sets): Sets
    requires AllValid(specs)
  {
    if evs == [] then S else After(specs, evs[|evs| - 1], Run(specs, evs[..|evs| - 1], S))
  }

  /** The step-port packets of source a that rule k's matches admit, in order. */
  ghost function Word(k: nat, s: Spec, a: Addr, evs: seq<Event>): seq<Step> {
    if evs == [] then []
    else
      var w := Word(k, s, a, evs[..|evs| - 1]);
      var ev := evs[|evs| - 1];
      if ev.Arrive? && ev.p.src == a && Qualifies(k, s, ev.p) && ev.p.step in s.steps then w + [ev.p.step] else w
  }

  /** w is s0, then s1 one or more times, ..., then si one or more times. */
  ghost predicate Spells(s: Spec, w: seq<Step>, i: nat)
    requires i < |s.steps|
    decreases |w|, i
  {
    |w| > 0 && w[|w| - 1] == s.steps[i] &&
    if i == 0 then |w| == 1
    else Spells(s, w[..|w| - 1], i - 1) || Spells(s, w[..|w| - 1], i)
  }

  ghost predicate EndsSpelling(s: Spec, w: seq<Step>, i: nat)
    requires i < |s.steps|
  {
    exists m :: 0 <= m <= |w| && Spells(s, w[m..], i)
  }

  lemma SpellMore(s: Spec, w: seq<Step>, i: nat, j: nat)
    requires i < |s.steps| && EndsSpelling(s, w, i) && j < |s.steps| && 1 <= j && (j == i || j == i + 1)
    ensures EndsSpelling(s, w + [s.steps[j]], j)
  {
    var m :| 0 <= m <= |w| && Spells(s, w[m..], i);
    var u := (w + [s.steps[j]])[m..];
    assert u[..|u| - 1] == w[m..];
    assert Spells(s, u, j);
  }

  lemma SpellRestart(s: Spec, w: seq<Step>)
    requires s.Valid()
    ensures EndsSpelling(s, w + [s.steps[0]], 0)
  {
    var u := w + [s.steps[0]];
    assert u[|w|..] == [s.steps[0]];
  }

  /** The automaton's stage is always spelt by the word that led to it. */
  lemma SpellNext(s: Spec, w: seq<Step>, c: Option<nat>, step: Step)
    requires s.Valid() && Bounded(s, c) && step in s.steps
    requires c.Some? ==> EndsSpelling(s, w, c.value)
    ensures Bounded(s, Next(s, c, step))
    ensures Next(s, c, step).Some? ==> EndsSpelling(s, w + [step], Next(s, c, step).value)
  {
    if step == s.steps[0] {
      SpellRestart(s, w);
    } else if Next(s, c, step).Some? {
      SpellMore(s, w, c.value, Next(s, c, step).value);
    }
  }

  lemma AfterStaged(specs: seq<Spec>, ev: Event, S: Sets)
    requires AllValid(specs) && Staged(specs, S)
    ensures Staged(specs, After(specs, ev, S))
  {
    if ev.Arrive? {
      ChainStep(specs, ev.p, S);
    }
  }

  /** No run leaves a source in two stages of one rule. */
  lemma {:induction false} RunStaged(specs: seq<Spec>, evs: seq<Event>, S: Sets)
    requires AllValid(specs) && Staged(specs, S)
    ensures Staged(specs, Run(specs, evs, S))
  {
    if evs != [] {
      RunStaged(specs, evs[..|evs| - 1], S);
      AfterStaged(specs, evs[|evs| - 1], Run(specs, evs[..|evs| - 1], S));
    }
  }

  /** An earlier rule takes the packet, and drops it. */
  ghost predicate Swallowed(specs: seq<Spec>, k: nat, p: Packet, S: Sets)
    requires AllValid(specs) && k <= |specs|
  {
    exists j :: 0 <= j < k && Wants(specs, j, p, S)
  }

  /** The step-port packets of source a that reach rule k, in order. */
  ghost function Heard(specs: seq<Spec>, k: nat, a: Addr, evs: seq<Event>, S: Sets): seq<Step>
    requires AllValid(specs) && k < |specs|
  {
    if evs == [] then []
    else
      var pre, ev := evs[..|evs| - 1], evs[|evs| - 1];
      var w := Heard(specs, k, a, pre, S);
      if ev.Arrive? && ev.p.src == a && Qualifies(k, specs[k], ev.p) && ev.p.step in specs[k].steps
         && !Swallowed(specs, k, ev.p, Run(specs, pre, S))
      then w + [ev.p.step] else w
  }

  /** What one packet does to rule k, whatever the other rules. */
  lemma ArriveStage(specs: seq<Spec>, k: nat, p: Packet, S: Sets)
    requires AllValid(specs) && Staged(specs, S) && k < |specs|
    ensures var c := StageOf(k, p.src, S);
      Bounded(specs[k], c)
      && StageOf(k, p.src, Chain(ChainRules(specs, |specs|), p, S))
         == if Qualifies(k, specs[k], p) && !Swallowed(specs, k, p, S) then Next(specs[k], c, p.step) else c
  {
    hide Chain, ChainRules, RulesOf;
    ChainFirst(specs, |specs|, p, S);
    WinnerFirst(specs, |specs|, p, S);
    StagedAt(specs, k, p.src, S);
    var S' := Chain(ChainRules(specs, |specs|), p, S);
    var w := Winner(specs, |specs|, p, S);
    if w.None? {
      UnwantedStill(specs, k, p, S, S');
    } else {
      KnockRefines(specs, w.value, p, S);
      if w.value != k {
        StageUnchanged(w.value, k, p.src, specs, S, S');
        if !Wants(specs, k, p, S) {
          UnwantedStill(specs, k, p, S, S');
        }
      }
    }
  }

  /** Where one event takes source a in rule k's stages. */
  lemma AfterHeard(specs: seq<Spec>, k: nat, a: Addr, ev: Event, S: Sets)
    requires AllValid(specs) && Staged(specs, S) && k < |specs|
    ensures var s, c := specs[k], StageOf(k, a, S);
      var c' := StageOf(k, a, After(specs, ev, S));
      && Bounded(s, c) && Bounded(s, c')
      && (if ev.Arrive? && ev.p.src == a
          then c' == if Qualifies(k, s, ev.p) && !Swallowed(specs, k, ev.p, S) then Next(s, c, ev.p.step) else c
          else c' == c || (!ev.Arrive? && c' == None))
  {
    hide Chain, ChainRules;
    AfterStaged(specs, ev, S);
    var S' := After(specs, ev, S);
    StagedAt(specs, k, a, S);
    StagedAt(specs, k, a, S');
    if ev.Arrive? {
      if ev.p.src == a {
        ArriveStage(specs, k, ev.p, S);
      } else {
        ChainStep(specs, ev.p, S);
      }
    } else {
      assert S' <= S;
    }
  }

  /** Whole-run safety: a source that starts in no stage and is in stage i of
      rule k earned it by a complete knock of steps 0 to i, contiguous in what
      reaches that rule. */
  lemma {:induction false} StageHeard(specs: seq<Spec>, k: nat, i: nat, a: Addr, evs: seq<Event>, S: Sets)
    requires AllValid(specs) && Staged(specs, S) && k < |specs|
    requires StageOf(k, a, S) == None
    requires Entry(k, i, a) in Run(specs, evs, S)
    ensures i < |specs[k].steps| && EndsSpelling(specs[k], Heard(specs, k, a, evs, S), i)
    decreases |evs|
  {
    hide After, Swallowed, Qualifies, EndsSpelling, Staged;
    RunStaged(specs, evs, S);
    StagedAt(specs, k, a, Run(specs, evs, S));
    if evs != [] {
      var s, pre, ev := specs[k], evs[..|evs| - 1], evs[|evs| - 1];
      var T := Run(specs, pre, S);
      RunStaged(specs, pre, S);
      StagedAt(specs, k, a, T);
      AfterHeard(specs, k, a, ev, T);
      var c := StageOf(k, a, T);
      if c.Some? {
        StageHeard(specs, k, c.value, a, pre, S);
      }
      if ev.Arrive? && ev.p.step in s.steps {
        SpellNext(s, Heard(specs, k, a, pre, S), c, ev.p.step);
      }
    }
  }

  lemma NextBlocks(s: Spec, c: Option<nat>, step: Step)
    requires s.Valid() && Bounded(s, c)
    requires c.Some? ==> s.steps[0] !in s.steps[1..c.value + 1]
    ensures var c' := Next(s, c, step);
      Bounded(s, c') && (c'.Some? ==> s.steps[0] !in s.steps[1..c'.value + 1])
  {
    var c' := Next(s, c, step);
    if c'.Some? && c.Some? && c'.value == c.value + 1 {
      assert s.steps[1..c'.value + 1] == s.steps[1..c.value + 1] + [step];
    }
  }

  /** Stage i is out of reach when the first step recurs among steps 1 to i. */
  lemma {:induction false} RepeatBlocks(specs: seq<Spec>, k: nat, i: nat, a: Addr, evs: seq<Event>, S: Sets)
    requires AllValid(specs) && k < |specs| && Staged(specs, S) && StageOf(k, a, S) == None
    requires Entry(k, i, a) in Run(specs, evs, S)
    ensures i < |specs[k].steps| && specs[k].steps[0] !in specs[k].steps[1..i + 1]
    decreases |evs|
  {
    hide After, Swallowed, Qualifies, Staged, Next, StageOf;
    RunStaged(specs, evs, S);
    StagedAt(specs, k, a, Run(specs, evs, S));
    if evs != [] {
      var pre, ev := evs[..|evs| - 1], evs[|evs| - 1];
      var T := Run(specs, pre, S);
      RunStaged(specs, pre, S);
      StagedAt(specs, k, a, T);
      AfterHeard(specs, k, a, ev, T);
      var c := StageOf(k, a, T);
      if c.Some? {
        RepeatBlocks(specs, k, c.value, a, pre, S);
      }
      if ev.Arrive? {
        NextBlocks(specs[k], c, ev.p.step);
      }
    }
  }

  /** All arriving packets are among those that can occur. */
  ghost predicate Possible(can: iset<Packet>, evs: seq<Event>) {
    forall i :: 0 <= i < |evs| && evs[i].Arrive? ==> evs[i].p in can
  }

  /** A packet of source a on step x can meet both rules, and it is a step of both. */
  ghost predicate Shares(specs: seq<Spec>, j: nat, k: nat, a: Addr, can: iset<Packet>, x: Step)
    requires AllValid(specs) && j < |specs| && k < |specs|
  {
    && x in specs[j].steps && x in specs[k].steps
    && exists p :: p in can && p.src == a && p.step == x && Qualifies(j, specs[j], p) && Qualifies(k, specs[k], p)
  }

  /** Rule k shares nothing with an earlier rule that could break its knocks:
      its first step at most, and that only if no later stage can be reached. */
  ghost predicate SharesHarmlessly(specs: seq<Spec>, k: nat, a: Addr, can: iset<Packet>)
    requires AllValid(specs) && k < |specs|
  {
    var steps := specs[k].steps;
    forall j, x :: 0 <= j < k && Shares(specs, j, k, a, can, x) ==>
      x == steps[0] && (|steps| == 1 || steps[1] == steps[0])
  }

  lemma SwallowedBy(specs: seq<Spec>, k: nat, p: Packet, S: Sets, can: iset<Packet>) returns (j: nat)
    requires AllValid(specs) && k < |specs| && Swallowed(specs, k, p, S) && p.step in specs[k].steps
    requires p in can && Qualifies(k, specs[k], p)
    ensures j < k && Shares(specs, j, k, p.src, can, p.step)
  {
    j :| 0 <= j < k && Wants(specs, j, p, S);
    assert p.step in specs[j].steps;
  }

  lemma SwallowedShared(specs: seq<Spec>, k: nat, p: Packet, S: Sets, can: iset<Packet>)
    requires AllValid(specs) && k < |specs| && Swallowed(specs, k, p, S) && p.step in specs[k].steps
    requires p in can && Qualifies(k, specs[k], p) && SharesHarmlessly(specs, k, p.src, can)
    ensures p.step == specs[k].steps[0] && (|specs[k].steps| == 1 || specs[k].steps[1] == specs[k].steps[0])
  {
    hide Shares, Swallowed, Qualifies;
    var j := SwallowedBy(specs, k, p, S, can);
  }

  lemma Recurs(s: Spec, v: nat)
    ensures 0 < v < |s.steps| && s.steps[1] == s.steps[0] ==> s.steps[0] in s.steps[1..v + 1]
  {
    if 0 < v < |s.steps| {
      assert s.steps[1..v + 1][0] == s.steps[1];
    }
  }

  /** So then the knock is contiguous in all the source's own step-port packets. */
  lemma {:induction false} StageEarned(
      specs: seq<Spec>, k: nat, i: nat, a: Addr, evs: seq<Event>, S: Sets, can: iset<Packet>)
    requires AllValid(specs) && Staged(specs, S) && k < |specs| && SharesHarmlessly(specs, k, a, can)
    requires Possible(can, evs)
    requires StageOf(k, a, S) == None
    requires Entry(k, i, a) in Run(specs, evs, S)
    ensures i < |specs[k].steps| && EndsSpelling(specs[k], Word(k, specs[k], a, evs), i)
    decreases |evs|
  {
    hide After, Swallowed, Qualifies, EndsSpelling, Staged, SharesHarmlessly, StageOf;
    RunStaged(specs, evs, S);
    StagedAt(specs, k, a, Run(specs, evs, S));
    if evs != [] {
      var s, pre, ev := specs[k], evs[..|evs| - 1], evs[|evs| - 1];
      var T := Run(specs, pre, S);
      RunStaged(specs, pre, S);
      StagedAt(specs, k, a, T);
      AfterHeard(specs, k, a, ev, T);
      var c := StageOf(k, a, T);
      if c.Some? {
        StageEarned(specs, k, c.value, a, pre, S, can);
      }
      if ev.Arrive? && ev.p.src == a && Qualifies(k, s, ev.p) && ev.p.step in s.steps {
        if Swallowed(specs, k, ev.p, T) {
          SwallowedShared(specs, k, ev.p, T, can);
          SpellRestart(s, Word(k, s, a, pre));
          if c.Some? {
            RepeatBlocks(specs, k, c.value, a, pre, S);
            Recurs(s, c.value);
          }
        } else {
          SpellNext(s, Word(k, s, a, pre), c, ev.p.step);
        }
      }
    }
  }

  /** A knock of the first n steps by source a: each packet meets rule k, and
      no earlier rule it meets has that step. */
  ghost predicate Knocking(specs: seq<Spec>, k: nat, a: Addr, n: nat, evs: seq<Event>)
    requires AllValid(specs) && k < |specs| && n <= |specs[k].steps|
  {
    && |evs| == n
    && forall i :: 0 <= i < n ==>
         && evs[i].Arrive? && evs[i].p.src == a && evs[i].p.step == specs[k].steps[i]
             && Qualifies(k, specs[k], evs[i].p)
         && forall j :: 0 <= j < k ==> evs[i].p.step !in specs[j].steps || !Qualifies(j, specs[j], evs[i].p)
  }

  /** Knocking every step in order reaches stage after stage, whatever the
      source's state was. */
  lemma {:induction false} KnockingOpens(specs: seq<Spec>, k: nat, a: Addr, n: nat, evs: seq<Event>, S: Sets)
    requires AllValid(specs) && Staged(specs, S) && k < |specs|
    requires 1 <= n <= |specs[k].steps| && specs[k].steps[0] !in specs[k].steps[1..n]
    requires Knocking(specs, k, a, n, evs)
    ensures StageOf(k, a, Run(specs, evs, S)) == Some(n - 1)
  {
    hide After, Staged, StageOf, Qualifies;
    var s, ev := specs[k], evs[n - 1];
    var T := Run(specs, evs[..n - 1], S);
    RunStaged(specs, evs[..n - 1], S);
    AfterHeard(specs, k, a, ev, T);
    assert !Swallowed(specs, k, ev.p, T);
    if n > 1 {
      assert s.steps[1..n] == s.steps[1..n - 1] + [s.steps[n - 1]];
      KnockingOpens(specs, k, a, n - 1, evs[..n - 1], S);
    }
  }

  /** A knock that only rule k's matches admit. */
  ghost function Knocks(specs: seq<Spec>, k: nat, a: Addr): (evs: seq<Event>)
    requires AllValid(specs) && k < |specs|
    ensures Knocking(specs, k, a, |specs[k].steps|, evs)
  {
    var evs := seq(|specs[k].steps|,
        i requires 0 <= i < |specs[k].steps| => Arrive(Packet(a, specs[k].steps[i], true, {Hit(k, 0)})));
    assert forall i :: 0 <= i < |evs| ==> Hit(k, 0) in evs[i].p.hits;
    evs
  }

  /** A sequence can ever authorise a source exactly when its first step does
      not occur again in it: the restart rule is emitted first and wins. */
  lemma OpensExactly(specs: seq<Spec>, k: nat, a: Addr)
    requires AllValid(specs) && k < |specs|
    ensures (exists evs :: Entry(k, |specs[k].steps| - 1, a) in Run(specs, evs, {}))
       <==> specs[k].steps[0] !in specs[k].steps[1..]
  {
    hide Run, StageOf, Knocking;
    var s, n := specs[k], |specs[k].steps|;
    assert s.steps[1..n] == s.steps[1..];
    NothingStaged(specs, k, a);
    if evs :| Entry(k, n - 1, a) in Run(specs, evs, {}) {
      RepeatBlocks(specs, k, n - 1, a, evs, {});
    }
    if s.steps[0] !in s.steps[1..] {
      var evs := Knocks(specs, k, a);
      KnockingOpens(specs, k, a, n, evs, {});
      RunStaged(specs, evs, {});
      StagedAt(specs, k, a, Run(specs, evs, {}));
    }
  }

  lemma NothingStaged(specs: seq<Spec>, k: nat, a: Addr)
    requires AllValid(specs)
    ensures Staged(specs, {}) && StageOf(k, a, {}) == None
  {
  }

  // ------------------------------------------------------- one-shot knocks

  /** Accepted new connections of source a at the gate of rule k. */
  ghost function Accepted(specs: seq<Spec>, k: nat, a: Addr, evs: seq<Event>, S: Sets): nat
    requires AllValid(specs)
  {
    if evs == [] then 0
    else
      var pre, ev := evs[..|evs| - 1], evs[|evs| - 1];
      Accepted(specs, k, a, pre, S)
      + if ev == Connect(k, a) && Accepts(specs, ev, Run(specs, pre, S)) then 1 else 0
  }

  /** How often source a entered the final stage of rule k. */
  ghost function Entered(specs: seq<Spec>, k: nat, a: Addr, evs: seq<Event>, S: Sets): nat
    requires AllValid(specs) && k < |specs|
  {
    if evs == [] then 0
    else
      var final := Entry(k, |specs[k].steps| - 1, a);
      var pre := evs[..|evs| - 1];
      Entered(specs, k, a, pre, S)
      + if final !in Run(specs, pre, S) && final in Run(specs, evs, S) then 1 else 0
  }

  /** With reusable=no each entry into the final stage pays for one connection. */
  lemma {:induction false} OneShot(specs: seq<Spec>, k: nat, a: Addr, evs: seq<Event>, S: Sets)
    requires AllValid(specs) && Staged(specs, S) && k < |specs| && !specs[k].reusable
    ensures var final := Entry(k, |specs[k].steps| - 1, a);
      Accepted(specs, k, a, evs, S) + (if final in Run(specs, evs, S) then 1 else 0)
      <= Entered(specs, k, a, evs, S) + if final in S then 1 else 0
  {
    if evs != [] {
      OneShot(specs, k, a, evs[..|evs| - 1], S);
    }
  }

  /** A connection is accepted from the final stage alone. It uses up the whole
      knock of its own source unless the rule is reusable, and then it may be
      repeated; no other source or rule notices. */
  lemma ConnectExact(specs: seq<Spec>, k: nat, a: Addr, S: Sets)
    requires AllValid(specs) && Staged(specs, S) && k < |specs|
    ensures var T, accepted := After(specs, Connect(k, a), S), Accepts(specs, Connect(k, a), S);
      && (accepted <==> StageOf(k, a, S) == Some(|specs[k].steps| - 1))
      && StageOf(k, a, T) == (if accepted && !specs[k].reusable then None else StageOf(k, a, S))
      && (specs[k].reusable ==> T == S && (accepted ==> Accepts(specs, Connect(k, a), T)))
      && forall e: Entry :: e.knock != k || e.src != a ==> (e in T <==> e in S)
  {
    AfterStaged(specs, Connect(k, a), S);
    StagedAt(specs, k, a, S);
    StagedAt(specs, k, a, After(specs, Connect(k, a), S));
  }

  /** Between two accepted connections of one source lies a complete fresh
      knock among what reaches the rule. */
  lemma FreshKnockBetween(specs: seq<Spec>, k: nat, a: Addr, evs: seq<Event>, S: Sets, can: iset<Packet>)
    requires AllValid(specs) && Staged(specs, S) && k < |specs| && !specs[k].reusable
    requires Accepts(specs, Connect(k, a), S)
    requires Accepts(specs, Connect(k, a), Run(specs, evs, After(specs, Connect(k, a), S)))
    ensures EndsSpelling(specs[k], Heard(specs, k, a, evs, After(specs, Connect(k, a), S)), |specs[k].steps| - 1)
    ensures SharesHarmlessly(specs, k, a, can) && Possible(can, evs) ==>
            EndsSpelling(specs[k], Word(k, specs[k], a, evs), |specs[k].steps| - 1)
  {
    var T := After(specs, Connect(k, a), S);
    AfterStaged(specs, Connect(k, a), S);
    StagedAt(specs, k, a, T);
    assert StageOf(k, a, T) == None;
    StageHeard(specs, k, |specs[k].steps| - 1, a, evs, T);
    if SharesHarmlessly(specs, k, a, can) && Possible(can, evs) {
      StageEarned(specs, k, |specs[k].steps| - 1, a, evs, T, can);
    }
  }
}
