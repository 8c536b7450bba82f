/** What operators and links decide: which provider an operator verb moves, and
    that no link that is down is left in service while another can carry it. */
module FailoverLaws {
  import opened Wrappers
  import opened Failover

  // ------------------------------------------------------------ operator verbs

  /** The only listed provider in service. */
  predicate OnlyLive(names: seq<Name>, disabled: set<Name>, n: Name) {
    n in names && n !in disabled && forall m :: m in names && m != n ==> m in disabled
  }

  lemma OnlyLiveIs(names: seq<Name>, disabled: set<Name>, n: Name)
    requires Distinct(names)
    ensures Live(names, disabled) == [n] <==> OnlyLive(names, disabled, n)
  {
    hide Live;
    LiveIn(names, disabled);
    OneName(Live(names, disabled), n);
    if Live(names, disabled) == [n] {
      forall m | m in names && m !in disabled
        ensures m == n
      {
        assert m in Live(names, disabled);
      }
    }
  }

  lemma OneName(live: seq<Name>, n: Name)
    requires Distinct(live)
    ensures live == [n] <==> n in live && forall m :: m in live ==> m == n
  {
    if n in live {
      assert live[0] in live && (|live| > 1 ==> live[1] in live);
    }
  }

  /** Which verb is refused, and why. */
  lemma VerbRefused(names: seq<Name>, c: Ctl, verb: Verb, n: Name, running: bool)
    requires Distinct(names)
    ensures var r := Operated(names, c, verb, n, running);
      && (r == Err(UnknownProvider) <==> n !in names)
      && (r == Err(OnlyEnabled) <==> verb == Disable && OnlyLive(names, c.disabled, n))
      && (r == Err(NotRunning) <==> n in names && !running && !(verb == Disable && OnlyLive(names, c.disabled, n)))
  {
    OnlyLiveIs(names, c.disabled, n);
  }

  /** A verb that is not refused puts its own provider in or out of service and
      in the operator's hands; nothing else changes, and nothing at all if it is. */
  lemma VerbDecides(cfg: Conf, s: Sys, verb: Verb, n: Name, running: bool, s': Sys)
    requires Distinct(cfg.names) && Step(cfg, s, Operator(verb, n, running), s')
    ensures var refused := n !in cfg.names || !running || (verb == Disable && OnlyLive(cfg.names, s.ctl.disabled, n));
      && s'.mons == s.mons && s'.ctl.pending == s.ctl.pending
      && (refused ==> s' == s)
      && (!refused ==> (n in s'.ctl.disabled <==> verb == Disable) && n !in s'.ctl.owned)
      && forall m :: m != n ==>
           (m in s'.ctl.disabled <==> m in s.ctl.disabled) && (m in s'.ctl.owned <==> m in s.ctl.owned)
  {
    OnlyLiveIs(cfg.names, s.ctl.disabled, n);
  }

  /** In service and not waiting to be taken out. */
  ghost predicate Serving(s: Sys, n: Name) {
    n !in s.ctl.disabled && n !in s.ctl.pending
  }

  lemma {:induction false} FlushSpares(names: seq<Name>, c: Ctl, order: seq<Name>, n: Name)
    requires n !in order
    ensures var c' := FlushAll(names, c, order);
      (n in c'.disabled <==> n in c.disabled) && c'.pending <= c.pending
  {
    hide Live;
    if order != [] {
      FlushSpares(names, c, order[..|order| - 1], n);
    }
  }

  lemma ServingStep(cfg: Conf, s: Sys, ev: Event, s': Sys, n: Name)
    requires Serving(s, n) && Step(cfg, s, ev, s')
    requires !(ev.Operator? && ev.verb == Disable && ev.name == n) && ev != Check(n, false)
    ensures Serving(s', n)
  {
    hide FlushAll, Live;
    if ev.Check? {
      var (h, change) := Lsm.Recorded(cfg.monitors[ev.name], s.mons[ev.name], ev.ok);
      if change.Some? {
        var d := Before(s.ctl, ev.name, change.value);
        if Flushed(cfg.names, d, s'.ctl) {
          var order :| Lists(order, d.pending) && s'.ctl == FlushAll(cfg.names, d, order);
          FlushSpares(cfg.names, d, order, n);
        }
      }
    }
  }

  /** The control state as the deferred-disable loop finds it. */
  function Before(c: Ctl, name: Name, to: Lsm.LinkState): Ctl {
    if to == Lsm.Down then Ctl(c.disabled + {name}, c.owned + {name}, c.pending - {name})
    else Ctl(c.disabled - {name}, c.owned - {name}, c.pending - {name})
  }

  /** An enabled provider stays in service until an operator disables it or its
      own link fails a check, unless its disable was already waiting. */
  lemma {:induction false} EnableHolds(cfg: Conf, tr: seq<Sys>, evs: seq<Event>, n: Name, i: nat)
    requires Runs(cfg, tr, evs) && 1 <= i < |tr| && evs[0] == Operator(Enable, n, true) && n in cfg.names
    requires n !in tr[0].ctl.pending
    requires forall k :: 1 <= k < i ==>
      !(evs[k].Operator? && evs[k].verb == Disable && evs[k].name == n) && evs[k] != Check(n, false)
    ensures n !in tr[i].ctl.disabled
    ensures Serving(tr[i], n)
  {
    if i == 1 {
      assert Step(cfg, tr[0], evs[0], tr[1]);
    } else {
      EnableHolds(cfg, tr, evs, n, i - 1);
      ServingStep(cfg, tr[i - 1], evs[i - 1], tr[i], n);
    }
  }

  // ------------------------------------------------------------- links that fail

  /** A provider whose link is down is out of service or waiting to be. */
  ghost predicate Handled(s: Sys, n: Name) {
    n in s.mons && s.mons[n].state == Lsm.Down ==> n in s.ctl.disabled || n in s.ctl.pending
  }

  lemma {:induction false} FlushTakes(names: seq<Name>, c: Ctl, order: seq<Name>)
    ensures var c' := FlushAll(names, c, order);
      c.disabled <= c'.disabled && c.pending - c'.pending <= c'.disabled
  {
    hide Live;
    if order != [] {
      FlushTakes(names, c, order[..|order| - 1]);
    }
  }

  lemma HandledStep(cfg: Conf, s: Sys, ev: Event, s': Sys, n: Name)
    requires Handled(s, n) && Step(cfg, s, ev, s') && !ev.Restart? && !(ev.Operator? && ev.name == n)
    requires s.mons.Keys == cfg.monitors.Keys
    ensures Handled(s', n)
  {
    hide FlushAll, Live;
    if ev.Check? {
      var (h, change) := Lsm.Recorded(cfg.monitors[ev.name], s.mons[ev.name], ev.ok);
      if change.Some? {
        var d := Before(s.ctl, ev.name, change.value);
        if Flushed(cfg.names, d, s'.ctl) {
          var order :| Lists(order, d.pending) && s'.ctl == FlushAll(cfg.names, d, order);
          FlushTakes(cfg.names, d, order);
        }
      }
    }
  }

  lemma KeysStep(cfg: Conf, s: Sys, ev: Event, s': Sys)
    requires s.mons.Keys == cfg.monitors.Keys && Step(cfg, s, ev, s')
    ensures s'.mons.Keys == cfg.monitors.Keys
  {
  }

  /** While the monitor runs and no operator acts on it, no failed link is
      forgotten: its provider is out of service, or deferred. */
  lemma {:induction false} AlwaysHandled(cfg: Conf, tr: seq<Sys>, evs: seq<Event>, n: Name, i: nat)
    requires Runs(cfg, tr, evs) && Init(cfg, tr[0]) && i < |tr|
    requires forall k :: 0 <= k < i ==> !evs[k].Restart? && !(evs[k].Operator? && evs[k].name == n)
    ensures Handled(tr[i], n) && tr[i].mons.Keys == cfg.monitors.Keys
  {
    hide Step;
    if i > 0 {
      AlwaysHandled(cfg, tr, evs, n, i - 1);
      HandledStep(cfg, tr[i - 1], evs[i - 1], tr[i], n);
      KeysStep(cfg, tr[i - 1], evs[i - 1], tr[i]);
    }
  }

  /** A deferred disable is carried out as soon as another link comes back. */
  lemma DeferredDone(cfg: Conf, s: Sys, n: Name, m: Name, s': Sys)
    requires Distinct(cfg.names) && Safe(cfg, s) && Step(cfg, s, Check(n, true), s') && n in cfg.names
    requires n in s.ctl.owned && s'.mons[n].state == Lsm.Up && s.mons[n].state == Lsm.Down
    requires m in s.ctl.pending && m in cfg.names && m !in s.ctl.disabled && m != n
    ensures m in s'.ctl.disabled && m in s'.ctl.owned
    ensures n !in s'.ctl.disabled
  {
    hide FlushAll, Live;
    var d := Before(s.ctl, n, Lsm.Up);
    assert m in cfg.names && m !in d.disabled;
    var order :| Lists(order, d.pending) && s'.ctl == FlushAll(cfg.names, d, order);
    FlushKeeps(cfg.names, d, order);
    FlushExact(cfg.names, d, order, m);
    FlushSpares(cfg.names, d, order, n);
    OnlyLiveIs(cfg.names, s'.ctl.disabled, m);
    assert m in s'.ctl.disabled - d.disabled;
  }

  /** Restarting with the saved counters forgets what was deferred, exactly
      where the provider is still in service: the deferral is lost. */
  lemma RestartForgets(cfg: Conf, s: Sys, s': Sys, n: Name)
    requires Step(cfg, s, Restart(true), s') && Handled(s, n) && n in s.mons
    ensures Handled(s', n) <==> n in s.ctl.disabled || s.mons[n].state == Lsm.Up
  {
  }

  // -------------------------------------------------------- links alone deciding

  /** Service follows the links: an up link's provider serves; a down link's
      provider is the monitor's and out, unless it is all there is left. */
  ghost predicate Follows(cfg: Conf, s: Sys) {
    forall n :: n in cfg.names ==>
      if n in s.mons && s.mons[n].state == Lsm.Down
      then (n in s.ctl.disabled && n in s.ctl.owned) || OnlyLive(cfg.names, s.ctl.disabled, n)
      else n !in s.ctl.disabled && n !in s.ctl.owned
  }

  /** The monitor owns all that is out, and what waits is all there is left. */
  ghost predicate Tight(cfg: Conf, s: Sys) {
    && s.ctl.owned == s.ctl.disabled
    && forall n :: n in s.ctl.pending && n in cfg.names && n !in s.ctl.disabled ==>
         Live(cfg.names, s.ctl.disabled) == [n]
  }

  lemma TightStep(cfg: Conf, s: Sys, ev: Event, s': Sys)
    requires Distinct(cfg.names) && Safe(cfg, s) && Tight(cfg, s) && Step(cfg, s, ev, s') && ev.Check?
    ensures Tight(cfg, s')
  {
    hide FlushAll, Live;
    var (h, change) := Lsm.Recorded(cfg.monitors[ev.name], s.mons[ev.name], ev.ok);
    if change.Some? {
      var n := ev.name;
      var d := Before(s.ctl, n, change.value);
      if change.value == Lsm.Down && n !in s.ctl.disabled && Live(cfg.names, s.ctl.disabled) != [n] {
        OthersAlive(cfg.names, s.ctl, n);
        FlushedKeeps(cfg.names, d, s'.ctl);
        SameGrowth(d, s'.ctl);
      } else if change.value == Lsm.Up && n in s.ctl.owned {
        var m :| m in cfg.names && m !in s.ctl.disabled;
        assert m in cfg.names && m !in d.disabled;
        FlushedKeeps(cfg.names, d, s'.ctl);
        SameGrowth(d, s'.ctl);
      }
    }
  }

  lemma SameGrowth(c: Ctl, d: Ctl)
    requires c.owned == c.disabled && c.disabled <= d.disabled && c.owned <= d.owned
    requires d.owned - c.owned == d.disabled - c.disabled
    ensures d.owned == d.disabled
  {
    forall n
      ensures n in d.owned <==> n in d.disabled
    {
      assert n in d.owned - c.owned <==> n in d.disabled - c.disabled;
    }
  }

  lemma {:induction false} AlwaysTight(cfg: Conf, tr: seq<Sys>, evs: seq<Event>, i: nat)
    requires Distinct(cfg.names) && cfg.names != [] && Runs(cfg, tr, evs) && Init(cfg, tr[0]) && i < |tr|
    requires forall k :: 0 <= k < i ==> evs[k].Check?
    ensures Tight(cfg, tr[i])
  {
    hide Step, Safe;
    if i > 0 {
      AlwaysTight(cfg, tr, evs, i - 1);
      AlwaysSafe(cfg, tr, evs, i - 1);
      TightStep(cfg, tr[i - 1], evs[i - 1], tr[i]);
    }
  }

  /** With no operator and no restart, service follows the links after every
      check, in every interleaving and whatever order deferrals are tried in. */
  lemma AlwaysFollows(cfg: Conf, tr: seq<Sys>, evs: seq<Event>, i: nat)
    requires Distinct(cfg.names) && cfg.names != [] && Runs(cfg, tr, evs) && Init(cfg, tr[0]) && i < |tr|
    requires forall k :: 0 <= k < i ==> evs[k].Check?
    ensures Follows(cfg, tr[i])
  {
    hide Runs, Live;
    AlwaysTight(cfg, tr, evs, i);
    AlwaysNoticed(cfg, tr, evs, i);
    forall n | n in cfg.names
      ensures Handled(tr[i], n) && (Live(cfg.names, tr[i].ctl.disabled) == [n] <==>
                OnlyLive(cfg.names, tr[i].ctl.disabled, n))
    {
      AlwaysHandled(cfg, tr, evs, n, i);
      OnlyLiveIs(cfg.names, tr[i].ctl.disabled, n);
    }
  }
}
