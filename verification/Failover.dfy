/** Provider failover: operator verbs, link-monitor transitions, ownership
    markers and deferred disables, interleaved in any order. */
module Failover {
  import opened Wrappers
  import Lsm

  type Name = string

  /** Providers in file order, and the monitored links. */
  datatype Conf = Conf(names: seq<Name>, monitors: map<Name, Lsm.Cfg>)

  /** State files reading "down", ownership markers, and deferred disables. */
  datatype Ctl = Ctl(disabled: set<Name>, owned: set<Name>, pending: set<Name>)

  datatype Verb = Enable | Disable

  datatype Refusal = UnknownProvider | OnlyEnabled | NotRunning

  /** The names not disabled, in file order. */
  function Live(names: seq<Name>, disabled: set<Name>): seq<Name> {
    if names == [] then []
    else Live(names[..|names| - 1], disabled)
         + if names[|names| - 1] in disabled then [] else [names[|names| - 1]]
  }

  /** An operator verb: a success takes ownership away from the monitor. */
  function Operated(names: seq<Name>, c: Ctl, verb: Verb, name: Name, running: bool): Result<Ctl, Refusal> {
    if name !in names then Err(UnknownProvider)
    else if verb == Disable && Live(names, c.disabled) == [name] then Err(OnlyEnabled)
    else if !running then Err(NotRunning)
    else Ok(Ctl(if verb == Disable then c.disabled + {name} else c.disabled - {name},
                c.owned - {name}, c.pending))
  }

  function FlushOne(names: seq<Name>, c: Ctl, name: Name): Ctl {
    var live := Live(names, c.disabled);
    if name in live && |live| > 1 then Ctl(c.disabled + {name}, c.owned + {name}, c.pending - {name}) else c
  }

  function FlushAll(names: seq<Name>, c: Ctl, order: seq<Name>): Ctl {
    if order == [] then c
    else FlushOne(names, FlushAll(names, c, order[..|order| - 1]), order[|order| - 1])
  }

  /** A listing of a set, in whatever order it is iterated. */
  ghost predicate Lists(order: seq<Name>, s: set<Name>) {
    Distinct(order) && forall n :: n in order <==> n in s
  }

  ghost predicate Flushed(names: seq<Name>, c: Ctl, c': Ctl) {
    exists order :: Lists(order, c.pending) && c' == FlushAll(names, c, order)
  }

  /** What a link transition may do to the control state. */
  ghost predicate Applied(names: seq<Name>, c: Ctl, name: Name, to: Lsm.LinkState, c': Ctl) {
    if to == Lsm.Down then
      if name in c.disabled then c' == c.(pending := c.pending - {name})
      else if Live(names, c.disabled) == [name] then c' == c.(pending := c.pending + {name})
      else Flushed(names, Ctl(c.disabled + {name}, c.owned + {name}, c.pending - {name}), c')
    else if name !in c.owned then c' == c.(pending := c.pending - {name})
    else Flushed(names, Ctl(c.disabled - {name}, c.owned - {name}, c.pending - {name}), c')
  }

  class Controller {
    const names: seq<Name>
    var disabled: set<Name>
    var owned: set<Name>
    var pending: set<Name>

    function Value(): Ctl
      reads this
    {
      Ctl(disabled, owned, pending)
    }

    constructor (names: seq<Name>)
      ensures this.names == names && Value() == Ctl({}, {}, {})
    {
      this.names := names;
      disabled, owned, pending := {}, {}, {};
    }

    method LiveNames() returns (live: seq<Name>)
      ensures live == Live(names, disabled)
    {
      live := [];
      for i := 0 to |names|
        invariant live == Live(names[..i], disabled)
      {
        assert names[..i + 1][..i] == names[..i];
        if names[i] !in disabled {
          live := live + [names[i]];
        }
      }
      assert names[..|names|] == names;
    }

    method SetProvider(verb: Verb, name: Name, running: bool) returns (r: Result<Verb, Refusal>)
      modifies this
      ensures match Operated(names, old(Value()), verb, name, running)
        case Ok(c) => r == Ok(verb) && Value() == c
        case Err(e) => r == Err(e) && Value() == old(Value())
    {
      if name !in names {
        return Err(UnknownProvider);
      }
      if verb == Disable {
        var enabled := LiveNames();
        if enabled == [name] {
          return Err(OnlyEnabled);
        }
      }
      if !running {
        return Err(NotRunning);
      }
      disabled := if verb == Disable then disabled + {name} else disabled - {name};
      owned := owned - {name};
      return Ok(verb);
    }

    method FlushPending()
      modifies this
      ensures Flushed(names, old(Value()), Value())
    {
      var order := Listing(pending);
      for i := 0 to |order|
        invariant Value() == FlushAll(names, old(Value()), order[..i])
      {
        assert order[..i + 1][..i] == order[..i];
        var live := LiveNames();
        if order[i] in live && |live| > 1 {
          disabled := disabled + {order[i]};
          owned := owned + {order[i]};
          pending := pending - {order[i]};
        }
      }
      assert order[..|order|] == order;
    }

    method Apply(name: Name, to: Lsm.LinkState)
      modifies this
      ensures Applied(names, old(Value()), name, to, Value())
    {
      if to == Lsm.Down {
        if name in disabled {
          pending := pending - {name};
          return;
        }
        var live := LiveNames();
        if live == [name] {
          pending := pending + {name};
          return;
        }
        disabled := disabled + {name};
        owned := owned + {name};
        pending := pending - {name};
      } else {
        pending := pending - {name};
        if name !in owned {
          return;
        }
        disabled := disabled - {name};
        owned := owned - {name};
      }
      FlushPending();
    }
  }

  /** A listing of a set in an unspecified order. */
  method Listing(s: set<Name>) returns (order: seq<Name>)
    ensures Lists(order, s)
  {
    order := [];
    var rest := s;
    while rest != {}
      invariant rest <= s && Lists(order, s - rest)
      decreases rest
    {
      var n :| n in rest;
      rest := rest - {n};
      order := order + [n];
    }
  }

  // ------------------------------------------------------------ live names

  lemma {:induction false} LiveIn(names: seq<Name>, disabled: set<Name>)
    ensures forall n :: n in Live(names, disabled) <==> n in names && n !in disabled
    ensures Distinct(names) ==> Distinct(Live(names, disabled))
  {
    if names != [] {
      var pre := names[..|names| - 1];
      LiveIn(pre, disabled);
      assert names == pre + [names[|names| - 1]];
    }
  }

  ghost predicate Alive(names: seq<Name>, c: Ctl) {
    exists n :: n in names && n !in c.disabled
  }

  /** Disabling one name leaves another alive, when it is not the only live one. */
  lemma OthersAlive(names: seq<Name>, c: Ctl, name: Name)
    requires Distinct(names) && Alive(names, c) && Live(names, c.disabled) != [name]
    ensures exists n :: n in names && n !in c.disabled + {name}
  {
    var live := Live(names, c.disabled);
    LiveIn(names, c.disabled);
    var n :| n in names && n !in c.disabled;
    assert n in live;
    if |live| == 1 {
      assert live == [live[0]];
      assert live[0] in names && live[0] !in c.disabled + {name};
    } else {
      var m := if live[0] != name then live[0] else live[1];
      assert m in live;
      assert m in names && m !in c.disabled + {name};
    }
  }

  /** The deferred-disable loop keeps the control invariants in every order. */
  lemma {:induction false} FlushKeeps(names: seq<Name>, c: Ctl, order: seq<Name>)
    requires Distinct(names) && Alive(names, c) && c.owned <= c.disabled
    ensures var c' := FlushAll(names, c, order);
      && Alive(names, c') && c'.owned <= c'.disabled && c'.pending <= c.pending
      && c.disabled <= c'.disabled && c.owned <= c'.owned
      && (forall n :: n in c'.disabled ==> n in c.disabled || n in order)
      && c'.owned - c.owned == c'.disabled - c.disabled
      && (forall n :: n in order && n in c'.owned - c.owned ==> n !in c'.pending)
  {
    if order != [] {
      var pre, n := order[..|order| - 1], order[|order| - 1];
      FlushKeeps(names, c, pre);
      var d := FlushAll(names, c, pre);
      LiveIn(names, d.disabled);
      assert order == pre + [n];
      if n in Live(names, d.disabled) && |Live(names, d.disabled)| > 1 {
        OthersAlive(names, d, n);
        var c' := FlushAll(names, c, order);
        assert c'.owned - c.owned == (d.owned - c.owned) + {n};
        assert c'.disabled - c.disabled == (d.disabled - c.disabled) + {n};
      }
    }
  }

  /** After the loop a deferred provider is live only if it is the only live one. */
  lemma {:induction false} FlushExact(names: seq<Name>, c: Ctl, order: seq<Name>, n: Name)
    requires Distinct(names) && n in order && n in names && Alive(names, c) && c.owned <= c.disabled
    ensures var c' := FlushAll(names, c, order);
      n !in c'.disabled ==> Live(names, c'.disabled) == [n]
  {
    var pre, last := order[..|order| - 1], order[|order| - 1];
    var d, c' := FlushAll(names, c, pre), FlushAll(names, c, order);
    assert order == pre + [last];
    FlushKeeps(names, c, pre);
    LiveIn(names, d.disabled);
    if n !in c'.disabled {
      if n in pre {
        FlushExact(names, c, pre, n);
        assert c' == d;
      } else {
        assert n in Live(names, d.disabled);
        assert Live(names, d.disabled)[0] == n;
      }
    }
  }

  // ------------------------------------------------------- the whole system

  datatype Sys = Sys(ctl: Ctl, mons: map<Name, Lsm.Hysteresis>)

  /** A restart empties the deferred set; `keep` restores saved counters. */
  datatype Event = Operator(verb: Verb, name: Name, running: bool) | Check(name: Name, ok: bool) | Restart(keep: bool)

  ghost function Fresh(cfg: Conf): map<Name, Lsm.Hysteresis> {
    map n | n in cfg.monitors :: Lsm.FRESH
  }

  ghost predicate Init(cfg: Conf, s: Sys) {
    s == Sys(Ctl({}, {}, {}), Fresh(cfg))
  }

  ghost predicate Step(cfg: Conf, s: Sys, ev: Event, s': Sys) {
    match ev
    case Operator(verb, name, running) =>
      var r := Operated(cfg.names, s.ctl, verb, name, running);
      s' == if r.Ok? then s.(ctl := r.value) else s
    case Check(name, ok) =>
      && name in cfg.monitors && name in s.mons
      && var (h, change) := Lsm.Recorded(cfg.monitors[name], s.mons[name], ok);
        && s'.mons == s.mons[name := h]
        && if change.None? then s'.ctl == s.ctl else Applied(cfg.names, s.ctl, name, change.value, s'.ctl)
    case Restart(keep) =>
      s' == Sys(s.ctl.(pending := {}), if keep then s.mons else Fresh(cfg))
  }

  ghost predicate Runs(cfg: Conf, tr: seq<Sys>, evs: seq<Event>) {
    |tr| == |evs| + 1 && forall i :: 0 <= i < |evs| ==> Step(cfg, tr[i], evs[i], tr[i + 1])
  }

  ghost predicate Safe(cfg: Conf, s: Sys) {
    && Alive(cfg.names, s.ctl)
    && s.ctl.owned <= s.ctl.disabled
    && s.mons.Keys == cfg.monitors.Keys
    && forall n :: n in s.ctl.pending ==> n in s.mons && s.mons[n].state == Lsm.Down
  }

  lemma FlushedKeeps(names: seq<Name>, c: Ctl, c': Ctl)
    requires Distinct(names) && Alive(names, c) && c.owned <= c.disabled && Flushed(names, c, c')
    ensures Alive(names, c') && c'.owned <= c'.disabled && c'.pending <= c.pending
    ensures c.disabled <= c'.disabled && c.owned <= c'.owned
    ensures c'.owned - c.owned == c'.disabled - c.disabled <= c.pending
    ensures forall n :: n in c'.pending && n in names && n !in c'.disabled ==> Live(names, c'.disabled) == [n]
  {
    var order :| Lists(order, c.pending) && c' == FlushAll(names, c, order);
    FlushKeeps(names, c, order);
    forall n | n in c'.pending && n in names && n !in c'.disabled
      ensures Live(names, c'.disabled) == [n]
    {
      FlushExact(names, c, order, n);
    }
  }

  lemma AppliedKeeps(names: seq<Name>, c: Ctl, name: Name, to: Lsm.LinkState, c': Ctl)
    requires Distinct(names) && Alive(names, c) && c.owned <= c.disabled && Applied(names, c, name, to, c')
    ensures Alive(names, c') && c'.owned <= c'.disabled
    ensures c'.pending <= if to == Lsm.Down then c.pending + {name} else c.pending - {name}
  {
    hide FlushAll, Live;
    if to == Lsm.Down && name !in c.disabled && Live(names, c.disabled) != [name] {
      OthersAlive(names, c, name);
      FlushedKeeps(names, Ctl(c.disabled + {name}, c.owned + {name}, c.pending - {name}), c');
    } else if to == Lsm.Up && name in c.owned {
      var d := Ctl(c.disabled - {name}, c.owned - {name}, c.pending - {name});
      var n :| n in names && n !in c.disabled;
      assert n in names && n !in d.disabled;
      FlushedKeeps(names, d, c');
    }
  }

  lemma StepSafe(cfg: Conf, s: Sys, ev: Event, s': Sys)
    requires Distinct(cfg.names) && Safe(cfg, s) && Step(cfg, s, ev, s')
    ensures Safe(cfg, s')
  {
    hide Applied, Live;
    match ev
    case Operator(verb, name, running) =>
      if Operated(cfg.names, s.ctl, verb, name, running).Ok? {
        if verb == Disable {
          OthersAlive(cfg.names, s.ctl, name);
        } else {
          assert name in cfg.names && name !in s'.ctl.disabled;
        }
      }
    case Check(name, ok) =>
      var (h, change) := Lsm.Recorded(cfg.monitors[name], s.mons[name], ok);
      if change.Some? {
        AppliedKeeps(cfg.names, s.ctl, name, change.value, s'.ctl);
      }
    case Restart(keep) =>
  }

  /** In every interleaving some provider stays enabled, what the monitor owns
      is disabled, and what is deferred has a link that is down. */
  lemma {:induction false} AlwaysSafe(cfg: Conf, tr: seq<Sys>, evs: seq<Event>, i: nat)
    requires Distinct(cfg.names) && cfg.names != [] && Runs(cfg, tr, evs) && Init(cfg, tr[0]) && i < |tr|
    ensures Safe(cfg, tr[i])
  {
    if i == 0 {
      assert cfg.names[0] in cfg.names;
    } else {
      AlwaysSafe(cfg, tr, evs, i - 1);
      StepSafe(cfg, tr[i - 1], evs[i - 1], tr[i]);
    }
  }

  // -------------------------------------------- names that are not distinct

  ghost predicate NeverBlackholed(cfg: Conf) {
    forall tr: seq<Sys>, evs, i :: Runs(cfg, tr, evs) && Init(cfg, tr[0]) && 0 <= i < |tr| ==>
        Alive(cfg.names, tr[i].ctl)
  }

  ghost function Emptying(cfg: Conf, d: Name, k: nat): Sys
    requires k <= |cfg.names|
  {
    Sys(Ctl((set n | n in cfg.names[..k]) - {d}, {}, {}), Fresh(cfg))
  }

  lemma {:induction false} TwiceLive(names: seq<Name>, disabled: set<Name>, i: nat, j: nat)
    requires i < j < |names| && names[i] == names[j] && names[i] !in disabled
    ensures |Live(names, disabled)| >= 2
  {
    var pre := names[..|names| - 1];
    if j < |names| - 1 {
      TwiceLive(pre, disabled, i, j);
    } else {
      LiveIn(pre, disabled);
      assert pre[i] in Live(pre, disabled);
    }
  }

  /** Every other name goes, the doubled one stays. */
  lemma EmptyingStep(cfg: Conf, d: Name, k: nat, i: nat, j: nat)
    requires i < j < |cfg.names| && cfg.names[i] == d && cfg.names[j] == d && k < |cfg.names|
    ensures Step(cfg, Emptying(cfg, d, k),
                 if cfg.names[k] != d then Operator(Disable, cfg.names[k], true) else Operator(Enable, d, true),
                 Emptying(cfg, d, k + 1))
  {
    hide Live;
    var names := cfg.names;
    TwiceLive(names, Emptying(cfg, d, k).ctl.disabled, i, j);
    assert names[..k + 1] == names[..k] + [names[k]];
    assert names[k] in names;
  }

  /** A provider name listed twice lets operators disable everything. */
  lemma DuplicateBlackholes(cfg: Conf, i: nat, j: nat)
    requires i < j < |cfg.names| && cfg.names[i] == cfg.names[j]
    ensures !NeverBlackholed(cfg)
  {
    var names, d, m := cfg.names, cfg.names[i], |cfg.names|;
    var evs := seq(m + 1, k => if k < m && 0 <= k && names[k] != d then Operator(Disable, names[k], true)
                               else if k < m then Operator(Enable, d, true) else Operator(Disable, d, true));
    var end := Sys(Ctl((set n | n in names), {}, {}), Fresh(cfg));
    var tr := seq(m + 2, k requires 0 <= k <= m + 1 => if k <= m then Emptying(cfg, d, k) else end);
    forall k | 0 <= k < |evs|
      ensures Step(cfg, tr[k], evs[k], tr[k + 1])
    {
      if k < m {
        EmptyingStep(cfg, d, k, i, j);
      } else {
        TwiceLive(names, tr[k].ctl.disabled, i, j);
        assert names[..m] == names;
      }
    }
    assert Emptying(cfg, d, 0).ctl.disabled == {};
    assert Runs(cfg, tr, evs) && Init(cfg, tr[0]);
    assert !Alive(names, tr[m + 1].ctl);
  }

  /** The last enabled provider is protected in every run exactly when the
      providers file has an entry and names no provider twice. */
  lemma ProtectedExactly(cfg: Conf)
    ensures NeverBlackholed(cfg) <==> cfg.names != [] && Distinct(cfg.names)
  {
    if cfg.names == [] {
      var s := Sys(Ctl({}, {}, {}), Fresh(cfg));
      assert Runs(cfg, [s], []) && Init(cfg, [s][0]) && !Alive(cfg.names, [s][0].ctl);
    } else if Distinct(cfg.names) {
      forall tr: seq<Sys>, evs, i | Runs(cfg, tr, evs) && Init(cfg, tr[0]) && 0 <= i < |tr|
        ensures Alive(cfg.names, tr[i].ctl)
      {
        AlwaysSafe(cfg, tr, evs, i);
      }
    } else {
      var i, j :| 0 <= i < j < |cfg.names| && cfg.names[i] == cfg.names[j];
      DuplicateBlackholes(cfg, i, j);
    }
  }

  // ----------------------------------------------------- operator authority

  /** Disabled by an operator: down and not the monitor's. */
  ghost predicate OperatorHeld(s: Sys, n: Name) {
    n in s.ctl.disabled && n !in s.ctl.owned
  }

  lemma {:induction false} FlushLeaves(names: seq<Name>, c: Ctl, order: seq<Name>, n: Name)
    requires n in c.disabled
    ensures var c' := FlushAll(names, c, order);
      n in c'.disabled && (n in c'.owned <==> n in c.owned)
  {
    if order != [] {
      var pre := order[..|order| - 1];
      FlushLeaves(names, c, pre, n);
      LiveIn(names, FlushAll(names, c, pre).disabled);
    }
  }

  lemma AuthorityStep(cfg: Conf, s: Sys, ev: Event, s': Sys, n: Name)
    requires OperatorHeld(s, n) && Step(cfg, s, ev, s')
    requires !(ev.Operator? && ev.verb == Enable && ev.name == n)
    ensures OperatorHeld(s', n)
  {
    hide FlushAll, Live;
    if ev.Check? {
      var (h, change) := Lsm.Recorded(cfg.monitors[ev.name], s.mons[ev.name], ev.ok);
      if change.Some? && s'.ctl != s.ctl {
        var c := s.ctl;
        var d := if change.value == Lsm.Down
                 then Ctl(c.disabled + {ev.name}, c.owned + {ev.name}, c.pending - {ev.name})
                 else Ctl(c.disabled - {ev.name}, c.owned - {ev.name}, c.pending - {ev.name});
        if Flushed(cfg.names, d, s'.ctl) && n in d.disabled {
          var order :| Lists(order, d.pending) && s'.ctl == FlushAll(cfg.names, d, order);
          FlushLeaves(cfg.names, d, order, n);
        }
      }
    }
  }

  /** Once an operator disable succeeds, only an operator enable undoes it. */
  lemma {:induction false} OperatorAuthority(cfg: Conf, tr: seq<Sys>, evs: seq<Event>, n: Name, running: bool, i: nat)
    requires Runs(cfg, tr, evs) && 1 <= i < |tr| && evs[0] == Operator(Disable, n, running)
    requires Operated(cfg.names, tr[0].ctl, Disable, n, running).Ok?
    requires forall k :: 1 <= k < i ==> !(evs[k].Operator? && evs[k].verb == Enable && evs[k].name == n)
    ensures OperatorHeld(tr[i], n)
  {
    if i == 1 {
      assert Step(cfg, tr[0], evs[0], tr[1]);
    } else {
      OperatorAuthority(cfg, tr, evs, n, running, i - 1);
      AuthorityStep(cfg, tr[i - 1], evs[i - 1], tr[i], n);
    }
  }

  // ------------------------------------------------- recovery and restarts

  /** A link that comes back up gets back what the monitor took from it. */
  lemma RecoveryEnables(cfg: Conf, s: Sys, n: Name, ok: bool, s': Sys)
    requires Distinct(cfg.names) && Safe(cfg, s) && n in cfg.names && n in s.ctl.owned
    requires Step(cfg, s, Check(n, ok), s') && n in s.mons
    requires s.mons[n].state == Lsm.Down && s'.mons[n].state == Lsm.Up
    ensures n !in s'.ctl.disabled && n !in s'.ctl.owned
  {
    hide FlushAll, Live;
    var c := s.ctl;
    var d := Ctl(c.disabled - {n}, c.owned - {n}, c.pending - {n});
    assert n in cfg.names && n !in d.disabled;
    FlushedKeeps(cfg.names, d, s'.ctl);
  }

  /** Owned by a monitor that believes the link is up: nothing will enable it. */
  ghost predicate Stranded(s: Sys, n: Name) {
    n in s.ctl.disabled && n in s.ctl.owned && (n in s.mons ==> s.mons[n].state == Lsm.Up)
  }

  lemma StrandedStep(cfg: Conf, s: Sys, ev: Event, s': Sys, n: Name)
    requires Stranded(s, n) && Step(cfg, s, ev, s')
    requires !(ev.Operator? && ev.name == n) && !(ev.Check? && ev.name == n && !ev.ok)
    ensures Stranded(s', n)
  {
    hide FlushAll, Live;
    if ev.Check? {
      var (h, change) := Lsm.Recorded(cfg.monitors[ev.name], s.mons[ev.name], ev.ok);
      if change.Some? && s'.ctl != s.ctl {
        var c := s.ctl;
        var d := if change.value == Lsm.Down
                 then Ctl(c.disabled + {ev.name}, c.owned + {ev.name}, c.pending - {ev.name})
                 else Ctl(c.disabled - {ev.name}, c.owned - {ev.name}, c.pending - {ev.name});
        if Flushed(cfg.names, d, s'.ctl) {
          var order :| Lists(order, d.pending) && s'.ctl == FlushAll(cfg.names, d, order);
          FlushLeaves(cfg.names, d, order, n);
        }
      }
    }
  }

  /** A daemon restart while a link is down forgets that it was down: if the
      link then answers, its provider stays disabled for as long as it keeps
      answering and no operator acts. */
  lemma {:induction false} RestartStrands(cfg: Conf, tr: seq<Sys>, evs: seq<Event>, n: Name, i: nat)
    requires Runs(cfg, tr, evs) && 1 <= i < |tr| && evs[0] == Restart(false)
    requires n in tr[0].ctl.owned && n in tr[0].ctl.disabled
    requires forall k :: 1 <= k < i ==>
      !(evs[k].Operator? && evs[k].name == n) && !(evs[k].Check? && evs[k].name == n && !evs[k].ok)
    ensures Stranded(tr[i], n)
  {
    if i == 1 {
      assert Step(cfg, tr[0], evs[0], tr[1]);
    } else {
      RestartStrands(cfg, tr, evs, n, i - 1);
      StrandedStep(cfg, tr[i - 1], evs[i - 1], tr[i], n);
    }
  }

  /** A restart that forgets the counters strands exactly what the monitor owned. */
  lemma RestartStrandsExactly(cfg: Conf, s: Sys, s': Sys, n: Name)
    requires Safe(cfg, s) && Step(cfg, s, Restart(false), s')
    ensures Stranded(s', n) <==> n in s.ctl.owned
  {
    assert forall m :: m in s'.mons ==> s'.mons[m] == Lsm.FRESH;
  }

  /** Link n has failed its last t checks, not enough yet for a change. */
  ghost function Failing(cfg: Conf, n: Name, t: nat): Sys {
    Sys(Ctl({}, {}, {}), Fresh(cfg)[n := Lsm.Hysteresis(Lsm.Up, 0, t)])
  }

  lemma {:induction false} AllLive(names: seq<Name>)
    ensures Live(names, {}) == names
  {
    if names != [] {
      AllLive(names[..|names| - 1]);
    }
  }

  /** The check that takes link n down disables its provider. */
  lemma FailedStep(cfg: Conf, n: Name, t: nat)
    requires n in cfg.monitors && cfg.names != [n] && t + 1 == cfg.monitors[n].down
    ensures Step(cfg, Failing(cfg, n, t), Check(n, false),
                 Sys(Ctl({n}, {n}, {}), Fresh(cfg)[n := Lsm.Hysteresis(Lsm.Down, 0, t + 1)]))
  {
    AllLive(cfg.names);
    var c := Ctl({n}, {n}, {});
    assert Lists([], c.pending) && c == FlushAll(cfg.names, c, []);
    assert Flushed(cfg.names, c, c);
    var none: set<Name> := {};
    assert Ctl(none + {n}, none + {n}, none - {n}) == c;
    assert Fresh(cfg)[n := Lsm.Hysteresis(Lsm.Up, 0, t)][n := Lsm.Hysteresis(Lsm.Down, 0, t + 1)]
        == Fresh(cfg)[n := Lsm.Hysteresis(Lsm.Down, 0, t + 1)];
  }

  lemma FailingStep(cfg: Conf, n: Name, t: nat)
    requires n in cfg.monitors && t + 1 < cfg.monitors[n].down
    ensures Step(cfg, Failing(cfg, n, t), Check(n, false), Failing(cfg, n, t + 1))
  {
    assert Fresh(cfg)[n := Lsm.Hysteresis(Lsm.Up, 0, t)][n := Lsm.Hysteresis(Lsm.Up, 0, t + 1)]
        == Fresh(cfg)[n := Lsm.Hysteresis(Lsm.Up, 0, t + 1)];
  }

  /** From all providers up: link n fails until its provider is disabled, and
      then the daemon restarts. */
  lemma StrandingRun(cfg: Conf, n: Name) returns (tr: seq<Sys>, evs: seq<Event>)
    requires n in cfg.monitors && cfg.monitors[n].Valid() && cfg.names != [n]
    ensures Runs(cfg, tr, evs) && Init(cfg, tr[0]) && Stranded(tr[|evs|], n)
  {
    var d := cfg.monitors[n].down;
    var down := Sys(Ctl({n}, {n}, {}), Fresh(cfg)[n := Lsm.Hysteresis(Lsm.Down, 0, d)]);
    var end := Sys(Ctl({n}, {n}, {}), Fresh(cfg));
    tr := seq(d + 2, t => if 0 <= t < d then Failing(cfg, n, t) else if t == d then down else end);
    evs := seq(d + 1, t => if t < d then Check(n, false) else Restart(false));
    forall t | 0 <= t < |evs|
      ensures Step(cfg, tr[t], evs[t], tr[t + 1])
    {
      if t + 1 < d {
        FailingStep(cfg, n, t);
      } else if t + 1 == d {
        FailedStep(cfg, n, t);
      }
    }
    assert Failing(cfg, n, 0).mons == Fresh(cfg);
  }

  /** Only monitored providers are ever owned or deferred. */
  ghost predicate OwnsMonitored(cfg: Conf, s: Sys) {
    s.ctl.owned <= cfg.monitors.Keys && s.ctl.pending <= cfg.monitors.Keys
  }

  lemma MonitoredStep(cfg: Conf, s: Sys, ev: Event, s': Sys)
    requires OwnsMonitored(cfg, s) && Step(cfg, s, ev, s')
    ensures OwnsMonitored(cfg, s')
  {
    hide FlushAll, Live;
    if ev.Check? {
      var (h, change) := Lsm.Recorded(cfg.monitors[ev.name], s.mons[ev.name], ev.ok);
      if change.Some? {
        var c := s.ctl;
        var d := if change.value == Lsm.Down
                 then Ctl(c.disabled + {ev.name}, c.owned + {ev.name}, c.pending - {ev.name})
                 else Ctl(c.disabled - {ev.name}, c.owned - {ev.name}, c.pending - {ev.name});
        if Flushed(cfg.names, d, s'.ctl) {
          var order :| Lists(order, d.pending) && s'.ctl == FlushAll(cfg.names, d, order);
          FlushTakesPending(cfg.names, d, order);
        }
      }
    }
  }

  lemma {:induction false} AlwaysMonitored(cfg: Conf, tr: seq<Sys>, evs: seq<Event>, i: nat)
    requires Runs(cfg, tr, evs) && Init(cfg, tr[0]) && i < |tr|
    ensures OwnsMonitored(cfg, tr[i])
  {
    hide Step;
    if i > 0 {
      AlwaysMonitored(cfg, tr, evs, i - 1);
      MonitoredStep(cfg, tr[i - 1], evs[i - 1], tr[i]);
    }
  }

  /** A provider can be stranded, in some run from all providers up, exactly
      when it is monitored and is not the only one. */
  lemma StrandedExactly(cfg: Conf, n: Name)
    requires Distinct(cfg.names) && cfg.names != [] && n in cfg.names
    requires forall m :: m in cfg.monitors ==> cfg.monitors[m].Valid()
    ensures (exists tr, evs :: Runs(cfg, tr, evs) && Init(cfg, tr[0]) && Stranded(tr[|evs|], n))
       <==> n in cfg.monitors && cfg.names != [n]
  {
    hide Step;
    if n in cfg.monitors && cfg.names != [n] {
      var tr, evs := StrandingRun(cfg, n);
    }
    if tr, evs :| Runs(cfg, tr, evs) && Init(cfg, tr[0]) && Stranded(tr[|evs|], n) {
      AlwaysMonitored(cfg, tr, evs, |evs|);
      AlwaysSafe(cfg, tr, evs, |evs|);
    }
  }

  /** Without such a restart it cannot happen: what the monitor owns always has
      a link in state down, so its recovery will be noticed. */
  ghost predicate OwnedNoticed(s: Sys) {
    forall n :: n in s.ctl.owned || n in s.ctl.pending ==> n in s.mons && s.mons[n].state == Lsm.Down
  }

  lemma {:induction false} FlushTakesPending(names: seq<Name>, c: Ctl, order: seq<Name>)
    requires forall n :: n in order ==> n in c.pending
    ensures var c' := FlushAll(names, c, order);
      c'.owned <= c.owned + c.pending && c'.pending <= c.pending
  {
    if order != [] {
      FlushTakesPending(names, c, order[..|order| - 1]);
    }
  }

  lemma NoticedStep(cfg: Conf, s: Sys, ev: Event, s': Sys)
    requires OwnedNoticed(s) && Step(cfg, s, ev, s') && ev != Restart(false)
    ensures OwnedNoticed(s')
  {
    hide FlushAll, Live;
    if ev.Check? {
      var (h, change) := Lsm.Recorded(cfg.monitors[ev.name], s.mons[ev.name], ev.ok);
      if change.Some? {
        var c := s.ctl;
        var d := if change.value == Lsm.Down
                 then Ctl(c.disabled + {ev.name}, c.owned + {ev.name}, c.pending - {ev.name})
                 else Ctl(c.disabled - {ev.name}, c.owned - {ev.name}, c.pending - {ev.name});
        if Flushed(cfg.names, d, s'.ctl) {
          var order :| Lists(order, d.pending) && s'.ctl == FlushAll(cfg.names, d, order);
          FlushTakesPending(cfg.names, d, order);
        }
      }
    }
  }

  lemma {:induction false} AlwaysNoticed(cfg: Conf, tr: seq<Sys>, evs: seq<Event>, i: nat)
    requires Runs(cfg, tr, evs) && Init(cfg, tr[0]) && i < |tr|
    requires forall k :: 0 <= k < i ==> evs[k] != Restart(false)
    ensures OwnedNoticed(tr[i])
  {
    if i > 0 {
      AlwaysNoticed(cfg, tr, evs, i - 1);
      NoticedStep(cfg, tr[i - 1], evs[i - 1], tr[i]);
    }
  }
}
