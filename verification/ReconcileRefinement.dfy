/** The method Reconcile refines the step system: undisturbed, it is one of its runs. */
module ReconcileRefinement {
  import opened Cluster
  import opened Reconciler
  import opened ReconcilerRuns
  import opened InstanceControl

  ghost function WorldOf(s: State): World {
    World(s.target, s.log, s.current)
  }

  /** Worker `w` has finished its reconcile in `s`, with this effect. */
  ghost predicate Shows(s: State, w: nat, effect: Effect) {
    && w in s.syncs && s.syncs[w].phase.Finished?
    && effect == Effect(WorldOf(s), s.syncs[w].copy.finalizers, s.syncs[w].phase.ok)
  }

  /** Update and its reply are one step of the worker. */
  lemma UpdateRefines(cfg: Config, s: State, w: nat, fault: Fault)
    requires w in s.syncs && s.syncs[w].phase.Finalizing?
    requires s.syncs[w].key in s.current ==> Live(s, s.syncs[w].key)
    ensures Next(cfg, s, UpdateSent(w, fault), AfterUpdate(s, w, fault))
    ensures var y, s' := s.syncs[w], AfterUpdate(s, w, fault);
            Shows(s', w, Updated(WorldOf(s), y.key, y.rev, y.copy, fault)) && s'.queue == s.queue && s'.syncs - {w} == s.syncs - {w}
  {
  }

  /** Where the pass leaves the worker: done, or about to send the rest of the effect. */
  lemma PassEffect(cfg: Config, s: State, w: nat, known: set<Gvk>, todo: seq<Object>, faults: seq<Fault>, fault: Fault)
    requires w in s.syncs && |todo| == |faults|
    requires s.syncs[w].copy.deleting ==> BOUQUET in s.syncs[w].copy.finalizers
    ensures var y := s.syncs[w];
            var effect := Reconciled(WorldOf(s), y.key, y.rev, y.copy, cfg.env(y.copy.uid), true, Some(known), todo, faults, fault);
            var t := AfterPass(cfg, s, w, if y.copy.deleting then Delete else Ensure, todo, known, faults);
            && t.log == s.log && t.current == s.current && t.queue == s.queue && t.syncs - {w} == s.syncs - {w}
            && w in t.syncs && var z := t.syncs[w];
            && z.key == y.key && z.rev == y.rev
            && (Shows(t, w, effect) || (z.phase.Finalizing? && effect == Updated(WorldOf(t), z.key, z.rev, z.copy, fault)))
  {
  }

  lemma PassRefines(cfg: Config, s: State, w: nat, known: set<Gvk>, todo: seq<Object>, faults: seq<Fault>, fault: Fault) returns (s': State)
    requires w in s.syncs && s.syncs[w].phase.Start? && |todo| == |faults|
    requires multiset(todo) == multiset(cfg.objects(s.syncs[w].copy.uid))
    requires s.syncs[w].copy.deleting ==> BOUQUET in s.syncs[w].copy.finalizers
    requires s.syncs[w].key in s.current ==> Live(s, s.syncs[w].key)
    ensures Path(cfg, s, s')
    ensures var y := s.syncs[w];
            Shows(s', w, Reconciled(WorldOf(s), y.key, y.rev, y.copy, cfg.env(y.copy.uid), true, Some(known), todo, faults, fault))
    ensures s'.queue == s.queue && s'.syncs - {w} == s.syncs - {w}
  {
    var y := s.syncs[w];
    var t := AfterPass(cfg, s, w, if y.copy.deleting then Delete else Ensure, todo, known, faults);
    PassEffect(cfg, s, w, known, todo, faults, fault);
    s' := if t.syncs[w].phase.Finalizing? then AfterUpdate(t, w, fault) else t;
    assert Path(cfg, s, s') by {
      ReconcileIsARun(cfg, s, w, todo, known, faults);
      if t.syncs[w].phase.Finalizing? {
        assert Next(cfg, t, UpdateSent(w, fault), s');
        AndThen(cfg, s, t, UpdateSent(w, fault), s');
      }
    }
    if t.syncs[w].phase.Finalizing? {
      UpdateRefines(cfg, t, w, fault);
    }
  }

  /** Whatever the faults, the method's effect is that of a run of worker `w`'s steps, which
      leaves the queue and the other workers alone. */
  lemma ReconcileRefines(cfg: Config, s: State, w: nat, rendered: bool, connection: Option<set<Gvk>>,
                         todo: seq<Object>, faults: seq<Fault>, fault: Fault) returns (s': State)
    requires w in s.syncs && s.syncs[w].phase.Start? && |todo| == |faults|
    requires rendered ==> multiset(todo) == multiset(cfg.objects(s.syncs[w].copy.uid))
    requires s.syncs[w].key in s.current ==> Live(s, s.syncs[w].key)
    ensures Path(cfg, s, s')
    ensures var y := s.syncs[w];
            Shows(s', w, Reconciled(WorldOf(s), y.key, y.rev, y.copy, cfg.env(y.copy.uid), rendered, connection, todo, faults, fault))
    ensures s'.queue == s.queue && s'.syncs - {w} == s.syncs - {w}
  {
    var y := s.syncs[w];
    if rendered && connection.Some? && (y.copy.deleting ==> BOUQUET in y.copy.finalizers) {
      s' := PassRefines(cfg, s, w, connection.value, todo, faults, fault);
    } else {
      s' := EarlyReturnRefines(cfg, s, w, rendered && y.copy.deleting && BOUQUET !in y.copy.finalizers);
    }
  }

  lemma EarlyReturnRefines(cfg: Config, s: State, w: nat, ok: bool) returns (s': State)
    requires w in s.syncs && s.syncs[w].phase.Start?
    requires ok ==> s.syncs[w].copy.deleting && BOUQUET !in s.syncs[w].copy.finalizers
    ensures Path(cfg, s, s') && Shows(s', w, Effect(WorldOf(s), s.syncs[w].copy.finalizers, ok))
    ensures s'.queue == s.queue && s'.syncs - {w} == s.syncs - {w}
  {
    s' := Advance(s, w, Finished(ok));
    NoStep(cfg, s);
    AndThen(cfg, s, s, if ok then NothingToDo(w) else SyncFailed(w), s');
  }
}
