/** Exactly when knocks are earned: which sharing of steps between knock rules
    can be swallowed without a trace. */
module KnockExact {
  import opened Wrappers
  import opened Knock

  lemma RunNext(specs: seq<Spec>, evs: seq<Event>, ev: Event, S: Sets)
    requires AllValid(specs)
    ensures Run(specs, evs + [ev], S) == After(specs, ev, Run(specs, evs, S))
  {
    hide After;
    assert (evs + [ev])[..|evs|] == evs;
  }

  /** The word of every possible run that takes source a to a stage of rule k is
      a knock to that stage. */
  ghost predicate AlwaysEarned(specs: seq<Spec>, k: nat, a: Addr, can: iset<Packet>, S: Sets)
    requires AllValid(specs) && k < |specs|
  {
    forall i: nat, evs :: Possible(can, evs) && StageOf(k, a, S) == None && Entry(k, i, a) in Run(specs, evs, S) ==>
      i < |specs[k].steps| && EndsSpelling(specs[k], Word(k, specs[k], a, evs), i)
  }

  /** A packet that meets rule r and no earlier one. */
  ghost predicate MeetsFirst(specs: seq<Spec>, r: nat, p: Packet)
    requires AllValid(specs) && r < |specs|
  {
    Qualifies(r, specs[r], p) && forall i :: 0 <= i < r ==> !Qualifies(i, specs[i], p)
  }

  ghost predicate Alone(specs: seq<Spec>, r: nat, a: Addr, can: iset<Packet>, x: Step, not: set<nat>)
    requires AllValid(specs) && r < |specs|
  {
    exists p :: p in can && p.src == a && p.step == x && MeetsFirst(specs, r, p)
      && forall i :: i in not && i < |specs| ==> !Qualifies(i, specs[i], p)
  }

  /** Source a can send each step of rule k to it past the earlier rules, and
      the first step of each earlier rule to that one past k. */
  ghost predicate Separable(specs: seq<Spec>, k: nat, a: Addr, can: iset<Packet>)
    requires AllValid(specs) && k < |specs|
  {
    && (forall x :: x in specs[k].steps ==> Alone(specs, k, a, can, x, {}))
    && forall j :: 0 <= j < k ==> Alone(specs, j, a, can, specs[j].steps[0], {k})
  }

  /** What one packet does to the stage of a rule. */
  lemma KnockStage(specs: seq<Spec>, k: nat, p: Packet, S: Sets)
    requires AllValid(specs) && Staged(specs, S) && k < |specs|
    ensures var S' := After(specs, Arrive(p), S);
      && Staged(specs, S') && Bounded(specs[k], StageOf(k, p.src, S))
      && (MeetsFirst(specs, k, p) ==> !Swallowed(specs, k, p, S))
      && StageOf(k, p.src, S')
         == if Qualifies(k, specs[k], p) && !Swallowed(specs, k, p, S)
             then Next(specs[k], StageOf(k, p.src, S), p.step) else StageOf(k, p.src, S)
  {
    hide Chain, ChainRules, Staged, Next, After, Qualifies;
    AfterStaged(specs, Arrive(p), S);
    AfterHeard(specs, k, p.src, Arrive(p), S);
  }

  lemma WordSnoc(specs: seq<Spec>, k: nat, evs: seq<Event>, p: Packet)
    requires AllValid(specs) && k < |specs|
    ensures Word(k, specs[k], p.src, evs + [Arrive(p)])
         == Word(k, specs[k], p.src, evs)
             + if Qualifies(k, specs[k], p) && p.step in specs[k].steps then [p.step] else []
  {
    assert (evs + [Arrive(p)])[..|evs|] == evs;
  }

  lemma PossibleSnoc(can: iset<Packet>, evs: seq<Event>, p: Packet)
    requires Possible(can, evs) && p in can
    ensures Possible(can, evs + [Arrive(p)])
  {
  }

  /** After these events from the start source a is in stage n of rule k. */
  ghost predicate Reached(specs: seq<Spec>, a: Addr, can: iset<Packet>, k: nat, n: nat, evs: seq<Event>)
    requires AllValid(specs)
  {
    && Possible(can, evs)
    && Staged(specs, Run(specs, evs, {})) && StageOf(k, a, Run(specs, evs, {})) == Some(n)
  }

  /** The stage of source a in rule j is the same after both. */
  ghost predicate SameStage(specs: seq<Spec>, a: Addr, j: nat, evs: seq<Event>, more: seq<Event>)
    requires AllValid(specs)
  {
    StageOf(j, a, Run(specs, evs, {})) == StageOf(j, a, Run(specs, more, {}))
  }

  /** One more step of rule k, that no earlier rule sees. */
  lemma StepAlone(specs: seq<Spec>, a: Addr, can: iset<Packet>, j: nat, k: nat, n: nat, step: Step, evs: seq<Event>)
    returns (more: seq<Event>)
    requires AllValid(specs) && j < k < |specs| && Reached(specs, a, can, k, n, evs) && n < |specs[k].steps|
    requires step in specs[k].steps && Next(specs[k], Some(n), step).Some? && Separable(specs, k, a, can)
    ensures Reached(specs, a, can, k, Next(specs[k], Some(n), step).value, more) && SameStage(specs, a, j, evs, more)
    ensures Word(k, specs[k], a, more) == Word(k, specs[k], a, evs) + [step]
  {
    hide Chain, ChainRules, After, Staged, StageOf, Swallowed, Qualifies, Next, Possible;
    assert Alone(specs, k, a, can, step, {});
    var S := Run(specs, evs, {});
    var p :| p in can && p.src == a && p.step == step && MeetsFirst(specs, k, p);
    RunNext(specs, evs, Arrive(p), {});
    PossibleSnoc(can, evs, p);
    KnockStage(specs, j, p, S);
    KnockStage(specs, k, p, S);
    WordSnoc(specs, k, evs, p);
    more := evs + [Arrive(p)];
  }

  /** On from stage lo to stage hi. */
  lemma {:induction false} StepsAlone(
      specs: seq<Spec>, a: Addr, can: iset<Packet>, j: nat, k: nat, lo: nat, hi: nat, evs: seq<Event>)
    returns (more: seq<Event>)
    requires AllValid(specs) && j < k < |specs| && Reached(specs, a, can, k, lo, evs) && Separable(specs, k, a, can)
    requires lo <= hi < |specs[k].steps| && specs[k].steps[0] !in specs[k].steps[1..hi + 1]
    ensures Reached(specs, a, can, k, hi, more) && SameStage(specs, a, j, evs, more)
    ensures Word(k, specs[k], a, more) == Word(k, specs[k], a, evs) + specs[k].steps[lo + 1..hi + 1]
  {
    hide Reached, Word, Run, StageOf, Separable;
    var s := specs[k];
    if lo == hi {
      more := evs;
      assert s.steps[lo + 1..hi + 1] == [];
    } else {
      assert s.steps[1..hi + 1] == s.steps[1..hi] + [s.steps[hi]];
      more := StepsAlone(specs, a, can, j, k, lo, hi - 1, evs);
      more := StepAlone(specs, a, can, j, k, hi - 1, s.steps[hi], more);
      assert s.steps[lo + 1..hi + 1] == s.steps[lo + 1..hi] + [s.steps[hi]];
    }
  }

  /** From the start, a knock of rule k to stage n with rule j ready to react. */
  lemma BothStaged(specs: seq<Spec>, a: Addr, can: iset<Packet>, j: nat, k: nat, n: nat) returns (evs: seq<Event>)
    requires AllValid(specs) && j < k < |specs| && Separable(specs, k, a, can)
    requires n < |specs[k].steps| && specs[k].steps[0] !in specs[k].steps[1..n + 1]
    ensures Reached(specs, a, can, k, n, evs) && Reached(specs, a, can, j, 0, evs)
    ensures Word(k, specs[k], a, evs) == specs[k].steps[..n + 1]
  {
    hide Run, Word, StageOf, Staged, Separable;
    var s := specs[k];
    evs := ReadyToReact(specs, a, can, j, k);
    evs := FirstKnock(specs, a, can, j, k, evs);
    evs := StepsAlone(specs, a, can, j, k, 0, n, evs);
    assert s.steps[..n + 1] == [s.steps[0]] + s.steps[1..n + 1];
  }

  lemma ReadyToReact(specs: seq<Spec>, a: Addr, can: iset<Packet>, j: nat, k: nat) returns (evs: seq<Event>)
    requires AllValid(specs) && j < k < |specs| && Separable(specs, k, a, can)
    ensures Reached(specs, a, can, j, 0, evs) && Word(k, specs[k], a, evs) == []
  {
    hide Chain, ChainRules, After, Staged, StageOf, Swallowed, Qualifies;
    assert Alone(specs, j, a, can, specs[j].steps[0], {k});
    var p :| p in can && p.src == a && p.step == specs[j].steps[0] && MeetsFirst(specs, j, p)
      && forall i :: i in {k} && i < |specs| ==> !Qualifies(i, specs[i], p);
    assert k in {k};
    NoStages(specs, a, j, k);
    RunNext(specs, [], Arrive(p), {});
    PossibleSnoc(can, [], p);
    KnockStage(specs, j, p, {});
    WordSnoc(specs, k, [], p);
    evs := [] + [Arrive(p)];
  }

  lemma FirstKnock(specs: seq<Spec>, a: Addr, can: iset<Packet>, j: nat, k: nat, evs: seq<Event>)
    returns (more: seq<Event>)
    requires AllValid(specs) && j < k < |specs| && Reached(specs, a, can, j, 0, evs) && Separable(specs, k, a, can)
    ensures Reached(specs, a, can, k, 0, more) && Reached(specs, a, can, j, 0, more)
    ensures Word(k, specs[k], a, more) == Word(k, specs[k], a, evs) + [specs[k].steps[0]]
  {
    hide Chain, ChainRules, After, Staged, StageOf, Swallowed, Qualifies, Possible;
    assert Alone(specs, k, a, can, specs[k].steps[0], {});
    var S := Run(specs, evs, {});
    var p :| p in can && p.src == a && p.step == specs[k].steps[0] && MeetsFirst(specs, k, p);
    RunNext(specs, evs, Arrive(p), {});
    PossibleSnoc(can, evs, p);
    KnockStage(specs, j, p, S);
    KnockStage(specs, k, p, S);
    WordSnoc(specs, k, evs, p);
    more := evs + [Arrive(p)];
  }

  /** Rule j takes a shared step; rule k never hears of it. */
  lemma StepSwallowed(specs: seq<Spec>, a: Addr, can: iset<Packet>, j: nat, k: nat, n: nat, x: Step, evs: seq<Event>)
    returns (more: seq<Event>)
    requires AllValid(specs) && j < k < |specs|
    requires Reached(specs, a, can, k, n, evs) && Reached(specs, a, can, j, 0, evs) && Shares(specs, j, k, a, can, x)
    ensures Reached(specs, a, can, k, n, more)
    ensures Word(k, specs[k], a, more) == Word(k, specs[k], a, evs) + [x]
  {
    hide Chain, ChainRules, After, Staged, StageOf, Qualifies, Possible;
    var S := Run(specs, evs, {});
    var p :| p in can && p.src == a && p.step == x && Qualifies(j, specs[j], p) && Qualifies(k, specs[k], p);
    RunNext(specs, evs, Arrive(p), {});
    PossibleSnoc(can, evs, p);
    KnockStage(specs, k, p, S);
    assert Wants(specs, j, p, S);
    WordSnoc(specs, k, evs, p);
    more := evs + [Arrive(p)];
  }

  lemma NoStages(specs: seq<Spec>, a: Addr, j: nat, k: nat)
    requires AllValid(specs)
    ensures Staged(specs, {}) && StageOf(j, a, {}) == None && StageOf(k, a, {}) == None && Run(specs, [], {}) == {}
  {
  }

  /** Swallowing a shared step other than the one a stage ends in breaks the
      knock to that stage. */
  lemma SharingBreaks(specs: seq<Spec>, a: Addr, can: iset<Packet>, j: nat, k: nat, x: Step, n: nat)
    returns (evs: seq<Event>)
    requires AllValid(specs) && j < k < |specs| && Shares(specs, j, k, a, can, x) && Separable(specs, k, a, can)
    requires n < |specs[k].steps| && x != specs[k].steps[n] && specs[k].steps[0] !in specs[k].steps[1..n + 1]
    ensures Possible(can, evs) && Entry(k, n, a) in Run(specs, evs, {})
    ensures !EndsSpelling(specs[k], Word(k, specs[k], a, evs), n) && StageOf(k, a, {}) == None
  {
    hide Run, StageOf, Staged, Word, Separable, Shares;
    NoStages(specs, a, j, k);
    var pre := BothStaged(specs, a, can, j, k, n);
    evs := StepSwallowed(specs, a, can, j, k, n, x, pre);
    StagedAt(specs, k, a, Run(specs, evs, {}));
    var s, w := specs[k], Word(k, specs[k], a, evs);
    assert w[|w| - 1] == x;
    forall m | 0 <= m <= |w|
      ensures !Spells(s, w[m..], n)
    {
      assert w[m..] != [] ==> w[m..][|w[m..]| - 1] == x;
    }
  }

  /** Whatever packets can occur, harmless sharing makes every stage of rule k
      earned by a contiguous knock. When each rule can be met on its own, only
      harmless sharing does: in runs from every state, and from the start alone. */
  lemma EarnedExactly(specs: seq<Spec>, k: nat, a: Addr, can: iset<Packet>)
    requires AllValid(specs) && k < |specs|
    ensures SharesHarmlessly(specs, k, a, can) ==> forall S :: Staged(specs, S) ==> AlwaysEarned(specs, k, a, can, S)
    ensures Separable(specs, k, a, can) ==>
            (AlwaysEarned(specs, k, a, can, {}) <==> SharesHarmlessly(specs, k, a, can))
  {
    hide Chain, ChainRules, StageOf, EndsSpelling, Word, Run, Possible, Separable, Shares;
    if SharesHarmlessly(specs, k, a, can) {
      forall S, i: nat, evs | Staged(specs, S) && StageOf(k, a, S) == None && Possible(can, evs)
          && Entry(k, i, a) in Run(specs, evs, S)
        ensures i < |specs[k].steps| && EndsSpelling(specs[k], Word(k, specs[k], a, evs), i)
      {
        StageEarned(specs, k, i, a, evs, S, can);
      }
    } else if Separable(specs, k, a, can) {
      var s := specs[k];
      var j, x :| 0 <= j < k && Shares(specs, j, k, a, can, x)
                  && !(x == s.steps[0] && (|s.steps| == 1 || s.steps[1] == s.steps[0]));
      var evs := SharingBreaks(specs, a, can, j, k, x, if x == s.steps[0] then 1 else 0);
    }
  }

  ghost function AllPackets(): iset<Packet> {
    iset p: Packet | p.isNew || !p.isNew
  }

  /** With every packet possible each rule can be met on its own, and rules
      share exactly the steps they have in common. */
  lemma Unrestricted(specs: seq<Spec>, k: nat, a: Addr)
    requires AllValid(specs) && k < |specs|
    ensures Separable(specs, k, a, AllPackets())
    ensures forall j, x :: 0 <= j < k ==>
              (Shares(specs, j, k, a, AllPackets(), x) <==> x in specs[j].steps && x in specs[k].steps)
  {
    var can := AllPackets();
    forall r: nat, x, no | r < |specs| && r !in no
      ensures Alone(specs, r, a, can, x, no)
    {
      var p := Packet(a, x, true, {Hit(r, 0)});
      assert Hit(r, 0) in p.hits && p in can;
      assert MeetsFirst(specs, r, p);
    }
    forall j, x | 0 <= j < k && x in specs[j].steps && x in specs[k].steps
      ensures Shares(specs, j, k, a, can, x)
    {
      var p := Packet(a, x, true, {Hit(j, 0), Hit(k, 0)});
      assert Hit(j, 0) in p.hits && Hit(k, 0) in p.hits && p in can;
    }
  }

  // ------------------------------------------------------ the final stage alone

  /** The word of every run that ends in the final stage is a whole knock. */
  ghost predicate FinalEarned(specs: seq<Spec>, k: nat, a: Addr, can: iset<Packet>, S: Sets)
    requires AllValid(specs) && k < |specs|
  {
    var n := |specs[k].steps| - 1;
    forall evs :: Possible(can, evs) && StageOf(k, a, S) == None && Entry(k, n, a) in Run(specs, evs, S) ==>
      EndsSpelling(specs[k], Word(k, specs[k], a, evs), n)
  }

  /** The final stage cannot be reached; or it is the only one; or all that is
      shared with earlier rules is the one step that every later step repeats. */
  ghost predicate SharesUnnoticed(specs: seq<Spec>, k: nat, a: Addr, can: iset<Packet>)
    requires AllValid(specs) && k < |specs|
  {
    var steps := specs[k].steps;
    || |steps| == 1 || steps[0] in steps[1..]
    || forall j, x :: 0 <= j < k && Shares(specs, j, k, a, can, x) ==> forall i :: 1 <= i < |steps| ==> steps[i] == x
  }

  /** How often a word moves on to another step. */
  ghost function Turns(w: seq<Step>): nat {
    if |w| <= 1 then 0 else Turns(w[..|w| - 1]) + if w[|w| - 2] != w[|w| - 1] then 1 else 0
  }

  lemma TurnsSnoc(w: seq<Step>, x: Step)
    requires w != []
    ensures Turns(w + [x]) == Turns(w) + if w[|w| - 1] != x then 1 else 0
  {
    assert (w + [x])[..|w|] == w;
  }

  lemma {:induction false} TurnsPlus(u: seq<Step>, w: seq<Step>)
    requires u != [] && w != []
    ensures Turns(u + w) == Turns(u) + Turns(w) + if u[|u| - 1] != w[0] then 1 else 0
  {
    var n := |w| - 1;
    if n == 0 {
      assert w == [w[0]];
      TurnsSnoc(u, w[0]);
    } else {
      assert w == w[..n] + [w[n]] && u + w == u + w[..n] + [w[n]];
      TurnsPlus(u, w[..n]);
      TurnsSnoc(w[..n], w[n]);
      TurnsSnoc(u + w[..n], w[n]);
    }
  }

  /** A spelling starts at the first step and turns as often as the steps do. */
  lemma {:induction false} SpellsTurns(s: Spec, w: seq<Step>, i: nat)
    requires i < |s.steps| && Spells(s, w, i)
    ensures w[0] == s.steps[0] && Turns(w) == Turns(s.steps[..i + 1])
    decreases |w|, i
  {
    var pre := w[..|w| - 1];
    if i > 0 {
      assert w == pre + [s.steps[i]] && s.steps[..i + 1] == s.steps[..i] + [s.steps[i]];
      TurnsSnoc(s.steps[..i], s.steps[i]);
      if Spells(s, pre, i - 1) {
        SpellsTurns(s, pre, i - 1);
      } else {
        SpellsTurns(s, pre, i);
      }
      TurnsSnoc(pre, s.steps[i]);
    }
  }

  /** A word with two turns too many, whose first step does not recur, spells nothing. */
  lemma TurnsUnspelt(s: Spec, w: seq<Step>, n: nat)
    requires n == |s.steps| - 1 && w != [] && Turns(w) == Turns(s.steps) + 2
    requires forall m :: 1 <= m < |w| ==> w[m] != s.steps[0]
    ensures !EndsSpelling(s, w, n)
  {
    hide Turns, Spells;
    assert s.steps[..n + 1] == s.steps && w[0..] == w;
    forall m | 0 <= m <= |w|
      ensures !Spells(s, w[m..], n)
    {
      SpellsIs(s, w[m..], n);
      assert m < |w| ==> w[m..][0] == w[m];
    }
  }

  lemma SpellsIs(s: Spec, w: seq<Step>, i: nat)
    requires i < |s.steps|
    ensures Spells(s, w, i) ==> w != [] && w[0] == s.steps[0] && Turns(w) == Turns(s.steps[..i + 1])
  {
    hide Turns;
    if Spells(s, w, i) {
      SpellsTurns(s, w, i);
    }
  }

  /** The last step is shared, and step i, the last that differs from it, comes
      before it: linger there while the shared step is swallowed. */
  lemma LingeringBreaks(specs: seq<Spec>, a: Addr, can: iset<Packet>, j: nat, k: nat, i: nat) returns (evs: seq<Event>)
    requires AllValid(specs) && j < k < |specs| && 1 <= i < |specs[k].steps| - 1 && Separable(specs, k, a, can)
    requires var steps := specs[k].steps; var x := steps[|steps| - 1];
      Shares(specs, j, k, a, can, x) && steps[0] !in steps[1..] && steps[i] != x
      && forall h :: i < h < |steps| ==> steps[h] == x
    ensures var n := |specs[k].steps| - 1;
      Possible(can, evs) && Entry(k, n, a) in Run(specs, evs, {})
      && !EndsSpelling(specs[k], Word(k, specs[k], a, evs), n)
  {
    hide Run, StageOf, Staged, Word, Turns, EndsSpelling, Separable, Shares;
    var s := specs[k];
    var n, x := |s.steps| - 1, s.steps[|s.steps| - 1];
    NoStages(specs, a, j, k);
    assert s.steps[1..i + 1] <= s.steps[1..] && s.steps[1..n + 1] == s.steps[1..];
    evs := BothStaged(specs, a, can, j, k, i);
    evs := StepSwallowed(specs, a, can, j, k, i, x, evs);
    assert s.steps[1..][i - 1] == s.steps[i];
    assert s.steps[i] != s.steps[0];
    evs := StepAlone(specs, a, can, j, k, i, s.steps[i], evs);
    evs := StepsAlone(specs, a, can, j, k, i, n, evs);
    StagedAt(specs, k, a, Run(specs, evs, {}));
    var w := Word(k, s, a, evs);
    assert s.steps[i + 1..n + 1] == s.steps[i + 1..];
    assert w == s.steps[..i + 1] + [x] + [s.steps[i]] + s.steps[i + 1..];
    LingeringWord(s, i, x);
    TurnsUnspelt(s, w, n);
  }

  lemma LingeringWord(s: Spec, i: nat, x: Step)
    requires s.steps[0..] != [] && i < |s.steps| - 1 && x == s.steps[i + 1] && x in s.steps[1..]
    requires x != s.steps[i] && s.steps[0] !in s.steps[1..] && i >= 1
    ensures var w := s.steps[..i + 1] + [x] + [s.steps[i]] + s.steps[i + 1..];
      Turns(w) == Turns(s.steps) + 2 && forall m :: 1 <= m < |w| ==> w[m] != s.steps[0]
  {
    hide Turns;
    var u, v, y := s.steps[..i + 1], s.steps[i + 1..], s.steps[i];
    assert s.steps == u + v;
    TurnsPlus(u, v);
    TurnsSnoc(u, x);
    TurnsSnoc(u + [x], y);
    TurnsPlus(u + [x] + [y], v);
    forall m | 1 <= m < |u + [x] + [y] + v|
      ensures (u + [x] + [y] + v)[m] in s.steps[1..]
    {
      var t := s.steps[1..];
      if m <= i {
        assert t[m - 1] == s.steps[m];
      } else if m == i + 2 {
        assert t[i - 1] == y;
      } else if m > i + 2 {
        assert t[m - 3] == s.steps[m - 2];
      }
    }
  }

  // When only the step that all later steps repeat is shared: the word ends in
  // the first step and enough of that one.

  ghost predicate EndsRepeating(s: Spec, w: seq<Step>, x: Step, v: nat)
    requires s.Valid()
  {
    exists m :: 0 <= m < |w| && w[m] == s.steps[0] && |w| - m - 1 >= v && forall t :: m < t < |w| ==> w[t] == x
  }

  lemma RepeatMore(s: Spec, w: seq<Step>, x: Step, v: nat)
    requires s.Valid() && EndsRepeating(s, w, x, v)
    ensures EndsRepeating(s, w + [x], x, v + 1)
  {
    var m :| 0 <= m < |w| && w[m] == s.steps[0] && |w| - m - 1 >= v && forall t :: m < t < |w| ==> w[t] == x;
    var u := w + [x];
    assert u[m] == s.steps[0] && forall t :: m < t < |u| ==> u[t] == x;
  }

  lemma RepeatLess(s: Spec, w: seq<Step>, x: Step, v: nat)
    requires s.Valid() && EndsRepeating(s, w, x, v + 1)
    ensures EndsRepeating(s, w, x, v)
  {
  }

  lemma RepeatStart(s: Spec, w: seq<Step>, x: Step)
    requires s.Valid()
    ensures EndsRepeating(s, w + [s.steps[0]], x, 0)
  {
    assert (w + [s.steps[0]])[|w|] == s.steps[0];
  }

  lemma {:induction false} RepeatSpells(s: Spec, u: seq<Step>, x: Step, i: nat)
    requires s.Valid() && i < |s.steps| && |u| >= i + 1 && u[0] == s.steps[0] && (i == 0 ==> |u| == 1)
    requires (forall t :: 1 <= t < |u| ==> u[t] == x) && forall h :: 1 <= h < |s.steps| ==> s.steps[h] == x
    ensures Spells(s, u, i)
  {
    if i > 0 {
      var pre := u[..|u| - 1];
      if |pre| > i {
        RepeatSpells(s, pre, x, i);
      } else {
        RepeatSpells(s, pre, x, i - 1);
      }
    }
  }

  lemma {:induction false} StageRepeats(
      specs: seq<Spec>, k: nat, i: nat, a: Addr, evs: seq<Event>, S: Sets, can: iset<Packet>, x: Step)
    requires AllValid(specs) && Staged(specs, S) && k < |specs| && StageOf(k, a, S) == None && Possible(can, evs)
    requires forall h :: 1 <= h < |specs[k].steps| ==> specs[k].steps[h] == x
    requires forall j, y :: 0 <= j < k && Shares(specs, j, k, a, can, y) ==> y == x
    requires Entry(k, i, a) in Run(specs, evs, S)
    ensures i < |specs[k].steps| && EndsRepeating(specs[k], Word(k, specs[k], a, evs), x, i)
    decreases |evs|
  {
    hide After, Swallowed, Qualifies, EndsRepeating, Staged, StageOf, Shares;
    RunStaged(specs, evs, S);
    StagedAt(specs, k, a, Run(specs, evs, S));
    if evs != [] {
      var s, pre, ev := specs[k], evs[..|evs| - 1], evs[|evs| - 1];
      var T := Run(specs, pre, S);
      RunStaged(specs, pre, S);
      StagedAt(specs, k, a, T);
      AfterHeard(specs, k, a, ev, T);
      var c, w := StageOf(k, a, T), Word(k, s, a, pre);
      if c.Some? {
        StageRepeats(specs, k, c.value, a, pre, S, can, x);
      }
      if ev.Arrive? && ev.p.src == a && Qualifies(k, s, ev.p) && ev.p.step in s.steps {
        if Swallowed(specs, k, ev.p, T) {
          var j := SwallowedBy(specs, k, ev.p, T, can);
        }
        RepeatStart(s, w, x);
        if c.Some? {
          RepeatMore(s, w, x, c.value);
          RepeatLess(s, w + [x], x, c.value);
        }
      }
    }
  }

  lemma FinalRepeats(specs: seq<Spec>, k: nat, a: Addr, evs: seq<Event>, S: Sets, can: iset<Packet>, x: Step)
    requires AllValid(specs) && Staged(specs, S) && k < |specs| && StageOf(k, a, S) == None && |specs[k].steps| > 1
    requires Possible(can, evs) && forall h :: 1 <= h < |specs[k].steps| ==> specs[k].steps[h] == x
    requires forall j, y :: 0 <= j < k && Shares(specs, j, k, a, can, y) ==> y == x
    requires Entry(k, |specs[k].steps| - 1, a) in Run(specs, evs, S)
    ensures EndsSpelling(specs[k], Word(k, specs[k], a, evs), |specs[k].steps| - 1)
  {
    hide Run, Word, Staged, StageOf, Spells, Shares, Possible;
    var s, w, n := specs[k], Word(k, specs[k], a, evs), |specs[k].steps| - 1;
    StageRepeats(specs, k, n, a, evs, S, can, x);
    var m :| 0 <= m < |w| && w[m] == s.steps[0] && |w| - m - 1 >= n && forall t :: m < t < |w| ==> w[t] == x;
    RepeatSpells(s, w[m..], x, n);
  }

  /** The same for the final stage alone, earned by a contiguous knock when
      sharing goes unnoticed and, if each rule can be met on its own, only then. */
  lemma FinalExactly(specs: seq<Spec>, k: nat, a: Addr, can: iset<Packet>)
    requires AllValid(specs) && k < |specs|
    ensures SharesUnnoticed(specs, k, a, can) ==> forall S :: Staged(specs, S) ==> FinalEarned(specs, k, a, can, S)
    ensures Separable(specs, k, a, can) ==>
            (FinalEarned(specs, k, a, can, {}) <==> SharesUnnoticed(specs, k, a, can))
  {
    hide Chain, ChainRules, StageOf, EndsSpelling, Word, Run, Possible, Separable, Shares;
    if SharesUnnoticed(specs, k, a, can) {
      forall S, evs | Staged(specs, S) && StageOf(k, a, S) == None && Possible(can, evs)
          && Entry(k, |specs[k].steps| - 1, a) in Run(specs, evs, S)
        ensures EndsSpelling(specs[k], Word(k, specs[k], a, evs), |specs[k].steps| - 1)
      {
        FinalKept(specs, k, a, evs, S, can);
      }
    } else if Separable(specs, k, a, can) {
      var evs := FinalBroken(specs, k, a, can);
      NoStages(specs, a, k, k);
    }
  }

  lemma FinalKept(specs: seq<Spec>, k: nat, a: Addr, evs: seq<Event>, S: Sets, can: iset<Packet>)
    requires AllValid(specs) && k < |specs| && SharesUnnoticed(specs, k, a, can) && Possible(can, evs)
    requires Staged(specs, S) && StageOf(k, a, S) == None && Entry(k, |specs[k].steps| - 1, a) in Run(specs, evs, S)
    ensures EndsSpelling(specs[k], Word(k, specs[k], a, evs), |specs[k].steps| - 1)
  {
    hide StageOf, EndsSpelling, Word, Run, Staged, Shares, Possible;
    var s, n := specs[k], |specs[k].steps| - 1;
    RepeatBlocks(specs, k, n, a, evs, S);
    assert s.steps[1..n + 1] == s.steps[1..];
    OneStepHarmless(specs, k, a, can);
    if SharesHarmlessly(specs, k, a, can) {
      StageEarned(specs, k, n, a, evs, S, can);
    } else {
      FinalRepeats(specs, k, a, evs, S, can, s.steps[1]);
    }
  }

  lemma OneStepHarmless(specs: seq<Spec>, k: nat, a: Addr, can: iset<Packet>)
    requires AllValid(specs) && k < |specs|
    ensures |specs[k].steps| == 1 ==> SharesHarmlessly(specs, k, a, can)
  {
  }

  lemma FinalBroken(specs: seq<Spec>, k: nat, a: Addr, can: iset<Packet>) returns (evs: seq<Event>)
    requires AllValid(specs) && k < |specs| && !SharesUnnoticed(specs, k, a, can) && Separable(specs, k, a, can)
    ensures var n := |specs[k].steps| - 1;
      Possible(can, evs) && Entry(k, n, a) in Run(specs, evs, {})
      && !EndsSpelling(specs[k], Word(k, specs[k], a, evs), n)
  {
    hide Run, Word, EndsSpelling, Possible, Separable, Shares;
    var s, n := specs[k], |specs[k].steps| - 1;
    assert s.steps[1..n + 1] == s.steps[1..];
    var j, x :| 0 <= j < k && Shares(specs, j, k, a, can, x)
        && !(forall i :: 1 <= i < |s.steps| ==> s.steps[i] == x);
    if x != s.steps[n] {
      evs := SharingBreaks(specs, a, can, j, k, x, n);
    } else {
      var i := n - 1;
      while s.steps[i] == x
        invariant 0 <= i < n && forall h :: i < h < |s.steps| ==> s.steps[h] == x
        decreases i
      {
        i := i - 1;
      }
      evs := LingeringBreaks(specs, a, can, j, k, i);
    }
  }

  /** A step of rule k that an earlier rule also has. */
  ghost predicate InEarlier(specs: seq<Spec>, k: nat, x: Step)
    requires AllValid(specs) && k < |specs|
  {
    x in specs[k].steps && exists j :: 0 <= j < k && x in specs[j].steps
  }

  /** When rules differ in their steps alone, and every packet is possible, both
      conditions can be read off the step lists. */
  lemma UnrestrictedExactly(specs: seq<Spec>, k: nat, a: Addr)
    requires AllValid(specs) && k < |specs|
    ensures var steps := specs[k].steps;
      && (AlwaysEarned(specs, k, a, AllPackets(), {}) <==>
          forall x :: InEarlier(specs, k, x) ==> x == steps[0] && (|steps| == 1 || steps[1] == steps[0]))
      && (FinalEarned(specs, k, a, AllPackets(), {}) <==>
          || |steps| == 1 || steps[0] in steps[1..]
          || forall x :: InEarlier(specs, k, x) ==> forall i :: 1 <= i < |steps| ==> steps[i] == x)
  {
    hide AlwaysEarned, FinalEarned, Separable, Shares, AllPackets, InEarlier;
    Unrestricted(specs, k, a);
    EarnedExactly(specs, k, a, AllPackets());
    FinalExactly(specs, k, a, AllPackets());
    forall x
      ensures InEarlier(specs, k, x) ==> exists j :: 0 <= j < k && Shares(specs, j, k, a, AllPackets(), x)
    {
      InEarlierIs(specs, k, x);
    }
    forall j, x | 0 <= j < k && Shares(specs, j, k, a, AllPackets(), x)
      ensures InEarlier(specs, k, x)
    {
      InEarlierIs(specs, k, x);
    }
  }

  lemma InEarlierIs(specs: seq<Spec>, k: nat, x: Step)
    requires AllValid(specs) && k < |specs|
    ensures InEarlier(specs, k, x) <==>
            exists j :: 0 <= j < k && x in specs[j].steps && x in specs[k].steps
  {
  }

  // ------------------------------------------------ a gap that shared steps allow

  function GapStep(n: nat): Step {
    Step(n, Tcp)
  }

  function GapSpecs(): seq<Spec> {
    [Spec([GapStep(1), GapStep(4)], 1, true), Spec([GapStep(2), GapStep(3), GapStep(4)], 1, true)]
  }

  function GapArrival(n: nat): Event {
    Arrive(Packet(7, GapStep(n), true, {Hit(0, 0), Hit(1, 0)}))
  }

  /** Knock 1, 2, 4, 3; the first rule's set times out; knock 4. */
  function GapRun(): seq<Event> {
    [GapArrival(1), GapArrival(2), GapArrival(4), GapArrival(3), Expire(Entry(0, 1, 7)), GapArrival(4)]
  }

  /** The two stages of source 7 after one of its knocks. */
  lemma GapStepped(n: nat, S: Sets)
    requires Staged(GapSpecs(), S)
    ensures var specs := GapSpecs();
      var S', c, d := After(specs, GapArrival(n), S), StageOf(0, 7, S), StageOf(1, 7, S);
      && AllValid(specs) && Staged(specs, S') && Bounded(specs[0], c) && Bounded(specs[1], d)
      && StageOf(0, 7, S') == Next(specs[0], c, GapStep(n))
      && StageOf(1, 7, S') == if Reacts(specs[0], c, GapStep(n)) then d else Next(specs[1], d, GapStep(n))
  {
    hide Chain, ChainRules, Staged, Next;
    var specs, ev := GapSpecs(), GapArrival(n);
    assert AllValid(specs);
    assert Hit(0, 0) in ev.p.hits && Hit(1, 0) in ev.p.hits;
    assert Qualifies(0, specs[0], ev.p) && Qualifies(1, specs[1], ev.p);
    AfterStaged(specs, ev, S);
    AfterHeard(specs, 0, 7, ev, S);
    AfterHeard(specs, 1, 7, ev, S);
    assert Swallowed(specs, 1, ev.p, S) <==> Wants(specs, 0, ev.p, S);
  }

  lemma GapExpired(S: Sets)
    requires Staged(GapSpecs(), S)
    ensures var S' := S - {Entry(0, 1, 7)};
      Staged(GapSpecs(), S') && StageOf(1, 7, S') == StageOf(1, 7, S)
      && StageOf(0, 7, S') == if StageOf(0, 7, S) == Some(1) then None else StageOf(0, 7, S)
  {
    var S' := S - {Entry(0, 1, 7)};
    StagedAt(GapSpecs(), 0, 7, S);
    StagedAt(GapSpecs(), 1, 7, S);
    StagedAt(GapSpecs(), 0, 7, S');
    StagedAt(GapSpecs(), 1, 7, S');
  }

  /** Two rules that share a step: source 7 reaches the final stage of the
      second although its own step-port packets 2, 4, 3, 4 are no contiguous knock. */
  lemma SharedStepGap()
    ensures var specs := GapSpecs();
      && AllValid(specs) && Entry(1, 2, 7) in Run(specs, GapRun(), {})
      && !EndsSpelling(specs[1], Word(1, specs[1], 7, GapRun()), 2)
  {
    GapReached();
    GapSpelt();
  }

  lemma GapReached()
    ensures AllValid(GapSpecs()) && Entry(1, 2, 7) in Run(GapSpecs(), GapRun(), {})
  {
    hide Staged, StageOf, Chain, ChainRules;
    var specs, evs := GapSpecs(), GapRun();
    var S0: Sets := {};
    StartStaged();
    var S1 := After(specs, evs[0], S0);
    var S2 := After(specs, evs[1], S1);
    var S3 := After(specs, evs[2], S2);
    var S4 := After(specs, evs[3], S3);
    var S5 := After(specs, evs[4], S4);
    var S6 := After(specs, evs[5], S5);
    GapStepped(1, S0);
    GapStepped(2, S1);
    GapStepped(4, S2);
    GapStepped(3, S3);
    GapExpired(S4);
    GapStepped(4, S5);
    assert StageOf(1, 7, S6) == Some(2);
    StagedAt(specs, 1, 7, S6);
    GapRuns(S0);
  }

  lemma GapRuns(S0: Sets)
    ensures AllValid(GapSpecs())
    ensures var specs, evs := GapSpecs(), GapRun();
      Run(specs, evs, S0)
      == After(specs, evs[5],
          After(specs, evs[4],
              After(specs, evs[3], After(specs, evs[2], After(specs, evs[1], After(specs, evs[0], S0))))))
  {
    hide After;
    var specs, evs := GapSpecs(), GapRun();
    RunNext(specs, [], evs[0], S0);
    RunNext(specs, evs[..1], evs[1], S0);
    RunNext(specs, evs[..2], evs[2], S0);
    RunNext(specs, evs[..3], evs[3], S0);
    RunNext(specs, evs[..4], evs[4], S0);
    RunNext(specs, evs[..5], evs[5], S0);
    assert [] + [evs[0]] == evs[..1] && evs[..1] + [evs[1]] == evs[..2] && evs[..2] + [evs[2]] == evs[..3];
    assert evs[..3] + [evs[3]] == evs[..4] && evs[..4] + [evs[4]] == evs[..5] && evs[..5] + [evs[5]] == evs;
  }

  lemma StartStaged()
    ensures AllValid(GapSpecs()) && Staged(GapSpecs(), {}) && StageOf(0, 7, {}) == None && StageOf(1, 7, {}) == None
  {
  }

  lemma GapSpelt()
    ensures !EndsSpelling(GapSpecs()[1], Word(1, GapSpecs()[1], 7, GapRun()), 2)
  {
    var s := GapSpecs()[1];
    var w := [GapStep(2), GapStep(4), GapStep(3), GapStep(4)];
    GapWord();
    forall m | 0 <= m <= |w|
      ensures !Spells(s, w[m..], 2)
    {
      var u := w[m..];
      if |u| > 1 {
        var v := u[..|u| - 1];
        assert v[|v| - 1] == GapStep(3);
        if |v| > 1 {
          assert v[..|v| - 1][|v| - 2] == GapStep(4);
          assert !Spells(s, v[..|v| - 1], 0) && !Spells(s, v[..|v| - 1], 1);
        } else {
          assert v[..0] == [];
          assert !Spells(s, v[..|v| - 1], 0) && !Spells(s, v[..|v| - 1], 1);
        }
        assert !Spells(s, v, 1) && !Spells(s, v, 2);
      } else if |u| == 1 {
        assert u[..0] == [] && !Spells(s, [], 1) && !Spells(s, [], 2);
      }
    }
  }

  lemma WordNext(evs: seq<Event>, ev: Event)
    ensures var s := GapSpecs()[1];
      Word(1, s, 7, evs + [ev]) == Word(1, s, 7, evs)
        + if ev.Arrive? && ev.p.src == 7 && Qualifies(1, s, ev.p) && ev.p.step in s.steps then [ev.p.step] else []
  {
    assert (evs + [ev])[..|evs|] == evs;
  }

  lemma GapWord()
    ensures Word(1, GapSpecs()[1], 7, GapRun()) == [GapStep(2), GapStep(4), GapStep(3), GapStep(4)]
  {
    hide Word;
    var s, evs := GapSpecs()[1], GapRun();
    forall n
      ensures Qualifies(1, s, GapArrival(n).p)
    {
      assert Hit(1, 0) in GapArrival(n).p.hits;
    }
    WordNone();
    WordNext([], evs[0]);
    WordNext(evs[..1], evs[1]);
    WordNext(evs[..2], evs[2]);
    WordNext(evs[..3], evs[3]);
    WordNext(evs[..4], evs[4]);
    WordNext(evs[..5], evs[5]);
    assert [] + [evs[0]] == evs[..1] && evs[..1] + [evs[1]] == evs[..2] && evs[..2] + [evs[2]] == evs[..3];
    assert evs[..3] + [evs[3]] == evs[..4] && evs[..4] + [evs[4]] == evs[..5] && evs[..5] + [evs[5]] == evs;
  }

  lemma WordNone()
    ensures Word(1, GapSpecs()[1], 7, []) == []
  {
  }
}
