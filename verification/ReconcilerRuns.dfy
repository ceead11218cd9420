/** Uninterrupted reconciles are runs of the step system, and finalization does happen. */
module ReconcilerRuns {
  import opened Cluster
  import opened Reconciler
  import opened Passes
  import Q = WorkQueue

  ghost predicate Path(cfg: Config, s: State, s': State) {
    exists r: Run :: Steps(cfg, r) && r.states[0] == s && r.states[|r.labels|] == s'
  }

  ghost predicate Steps(cfg: Config, r: Run) {
    && |r.states| == |r.labels| + 1
    && forall i :: 0 <= i < |r.labels| ==> Next(cfg, r.states[i], r.labels[i], r.states[i + 1])
  }

  lemma NoStep(cfg: Config, s: State)
    ensures Path(cfg, s, s)
  {
    var r := Run([s], []);
    assert Steps(cfg, r) && r.states[0] == s && r.states[|r.labels|] == s;
  }

  lemma AndThen(cfg: Config, a: State, b: State, l: Label, c: State)
    requires Path(cfg, a, b) && Next(cfg, b, l, c)
    ensures Path(cfg, a, c)
  {
    var r: Run :| Steps(cfg, r) && r.states[0] == a && r.states[|r.labels|] == b;
    var t := Run(r.states + [c], r.labels + [l]);
    forall i | 0 <= i < |t.labels|
      ensures Next(cfg, t.states[i], t.labels[i], t.states[i + 1])
    {
      if i < |r.labels| {
        assert Next(cfg, r.states[i], r.labels[i], r.states[i + 1]);
      }
    }
    assert Steps(cfg, t) && t.states[0] == a && t.states[|t.labels|] == c;
  }

  ghost function InPass(verb: Verb, todo: seq<Object>, failed: bool): Phase {
    if verb.Ensure? then Ensuring(todo, failed) else Deleting(todo, failed)
  }

  /** The state after the first `k` calls of a pass nobody interrupts. */
  ghost function MidPass(cfg: Config, s: State, w: nat, verb: Verb, todo: seq<Object>, known: set<Gvk>, faults: seq<Fault>, k: nat): State
    requires w in s.syncs && |todo| == |faults| && k <= |todo|
  {
    var r := Pass(verb, cfg.env(s.syncs[w].copy.uid), known, s.target, todo[..k], faults[..k]);
    Advance(s, w, InPass(verb, todo[k..], !ErrorFree(verb, r))).(target := r.target)
  }

  /** One more call of the pass, on the targets. */
  lemma OneMoreCall(verb: Verb, env: Env, known: set<Gvk>, t: Target, todo: seq<Object>, faults: seq<Fault>, k: nat)
    requires |todo| == |faults| && k < |todo|
    ensures var r := Pass(verb, env, known, t, todo[..k], faults[..k]);
            var r' := Pass(verb, env, known, t, todo[..k + 1], faults[..k + 1]);
            var (t', outcome) := Act(verb, env, known, r.target, todo[k], faults[k]);
            r'.target == t' && (ErrorFree(verb, r') <==> ErrorFree(verb, r) && Fine(verb, outcome))
  {
    var r := Pass(verb, env, known, t, todo[..k], faults[..k]);
    var r' := Pass(verb, env, known, t, todo[..k + 1], faults[..k + 1]);
    assert todo[..k + 1][..k] == todo[..k] && faults[..k + 1][..k] == faults[..k];
    ErrorFreeSplits(verb, r.outcomes, r'.outcomes[k], r');
  }

  /** One more call of the pass, in the phase. */
  lemma PhaseAfterCall(verb: Verb, todo: seq<Object>, failed: bool, outcome: Outcome)
    requires todo != []
    ensures var phase := InPass(verb, todo, failed);
            && Passing(phase) && phase.todo == todo && VerbOf(phase) == verb
            && AfterCall(phase, outcome) == InPass(verb, todo[1..], failed || !Fine(verb, outcome))
  {
  }

  lemma CallMoves(cfg: Config, s: State, w: nat, verb: Verb, todo: seq<Object>, failed: bool, t: Target, known: set<Gvk>, fault: Fault)
    requires w in s.syncs && todo != []
    ensures var (t', outcome) := Act(verb, cfg.env(s.syncs[w].copy.uid), known, t, todo[0], fault);
            Call(cfg, Advance(s, w, InPass(verb, todo, failed)).(target := t), w, known, fault,
                 Advance(s, w, InPass(verb, todo[1..], failed || !Fine(verb, outcome))).(target := t'))
  {
    PhaseAfterCall(verb, todo, failed, Act(verb, cfg.env(s.syncs[w].copy.uid), known, t, todo[0], fault).1);
  }

  lemma CallStep(cfg: Config, s: State, w: nat, verb: Verb, todo: seq<Object>, known: set<Gvk>, faults: seq<Fault>, k: nat)
    requires w in s.syncs && |todo| == |faults| && k < |todo|
    ensures Call(cfg, MidPass(cfg, s, w, verb, todo, known, faults, k), w, known, faults[k],
                 MidPass(cfg, s, w, verb, todo, known, faults, k + 1))
  {
    var env := cfg.env(s.syncs[w].copy.uid);
    var r := Pass(verb, env, known, s.target, todo[..k], faults[..k]);
    OneMoreCall(verb, env, known, s.target, todo, faults, k);
    CallMoves(cfg, s, w, verb, todo[k..], !ErrorFree(verb, r), r.target, known, faults[k]);
    assert todo[k..][0] == todo[k] && todo[k..][1..] == todo[k + 1..];
  }

  lemma {:induction false} PassIsARun(cfg: Config, s: State, w: nat, verb: Verb, todo: seq<Object>, known: set<Gvk>, faults: seq<Fault>, k: nat)
    requires w in s.syncs && |todo| == |faults| && k <= |todo| && s.syncs[w].phase == InPass(verb, todo, false)
    ensures Path(cfg, s, MidPass(cfg, s, w, verb, todo, known, faults, k))
  {
    if k == 0 {
      assert todo[0..] == todo;
      assert s == MidPass(cfg, s, w, verb, todo, known, faults, 0);
      NoStep(cfg, s);
    } else {
      PassIsARun(cfg, s, w, verb, todo, known, faults, k - 1);
      CallStep(cfg, s, w, verb, todo, known, faults, k - 1);
      AndThen(cfg, s, MidPass(cfg, s, w, verb, todo, known, faults, k - 1), Called(w, known, faults[k - 1]),
              MidPass(cfg, s, w, verb, todo, known, faults, k));
    }
  }

  /** What an uninterrupted pass leads to: an error, success, or the Update of the
      finalizer, as the method Reconcile has it. */
  ghost function AfterPass(cfg: Config, s: State, w: nat, verb: Verb, todo: seq<Object>, known: set<Gvk>, faults: seq<Fault>): State
    requires w in s.syncs && |todo| == |faults|
  {
    var r := Pass(verb, cfg.env(s.syncs[w].copy.uid), known, s.target, todo, faults);
    var t := s.(target := r.target);
    if verb.Delete? && ErrorFree(verb, r) then TakeFinalizer(t, w) else Advance(t, w, Finished(ErrorFree(verb, r)))
  }

  /** The worker has started the pass, whatever its verb. */
  ghost function Started(s: State, w: nat, todo: seq<Object>): State
    requires w in s.syncs
  {
    Advance(s, w, InPass(if s.syncs[w].copy.deleting then Delete else Ensure, todo, false))
  }

  lemma EndMoves(s: State, w: nat, verb: Verb, failed: bool, t: Target)
    requires w in s.syncs
    ensures EndPass(Advance(s, w, InPass(verb, [], failed)).(target := t), w,
                    if verb.Delete? && !failed then TakeFinalizer(s.(target := t), w)
                    else Advance(s.(target := t), w, Finished(!failed)))
  {
  }

  lemma EndStep(cfg: Config, s: State, w: nat, todo: seq<Object>, known: set<Gvk>, faults: seq<Fault>)
    requires w in s.syncs && |todo| == |faults|
    ensures var verb := if s.syncs[w].copy.deleting then Delete else Ensure;
            EndPass(MidPass(cfg, Started(s, w, todo), w, verb, todo, known, faults, |todo|), w, AfterPass(cfg, s, w, verb, todo, known, faults))
  {
    var verb := if s.syncs[w].copy.deleting then Delete else Ensure;
    var r := Pass(verb, cfg.env(s.syncs[w].copy.uid), known, s.target, todo, faults);
    assert todo[..|todo|] == todo && faults[..|todo|] == faults && todo[|todo|..] == [];
    EndMoves(s, w, verb, !ErrorFree(verb, r), r.target);
    AdvanceTwice(s, w, InPass(verb, todo, false), InPass(verb, [], !ErrorFree(verb, r)));
  }

  lemma AdvanceTwice(s: State, w: nat, first: Phase, second: Phase)
    requires w in s.syncs
    ensures Advance(Advance(s, w, first), w, second) == Advance(s, w, second)
  {
  }

  lemma ReconcileIsARun(cfg: Config, s: State, w: nat, todo: seq<Object>, known: set<Gvk>, faults: seq<Fault>)
    requires w in s.syncs && s.syncs[w].phase.Start? && |todo| == |faults|
    requires multiset(todo) == multiset(cfg.objects(s.syncs[w].copy.uid))
    requires s.syncs[w].copy.deleting ==> BOUQUET in s.syncs[w].copy.finalizers
    ensures Path(cfg, s, AfterPass(cfg, s, w, if s.syncs[w].copy.deleting then Delete else Ensure, todo, known, faults))
  {
    var verb := if s.syncs[w].copy.deleting then Delete else Ensure;
    var a := Started(s, w, todo);
    var b := MidPass(cfg, a, w, verb, todo, known, faults, |todo|);
    NoStep(cfg, s);
    assert StartPass(cfg, s, w, todo, a);
    AndThen(cfg, s, s, PassStarted(w, todo), a);
    PassIsARun(cfg, a, w, verb, todo, known, faults, |todo|);
    EndStep(cfg, s, w, todo, known, faults);
    Concat(cfg, s, a, b);
    AndThen(cfg, s, b, PassEnded(w), AfterPass(cfg, s, w, verb, todo, known, faults));
  }

  lemma Concat(cfg: Config, a: State, b: State, c: State)
    requires Path(cfg, a, b) && Path(cfg, b, c)
    ensures Path(cfg, a, c)
  {
    var r: Run :| Steps(cfg, r) && r.states[0] == b && r.states[|r.labels|] == c;
    var i := 0;
    while i < |r.labels|
      invariant 0 <= i <= |r.labels| && Path(cfg, a, r.states[i])
    {
      AndThen(cfg, a, r.states[i], r.labels[i], r.states[i + 1]);
      i := i + 1;
    }
  }

  /** An instance is created with the finalizer, deleted, seen by the cache and queued. */
  lemma DeletedInstanceIsQueued(cfg: Config, s0: State, u: nat) returns (s: State)
    requires Init(cfg, s0)
    ensures Path(cfg, s0, s) && s.queue == s0.queue.(q := Q.Add(s0.queue.q, Q.Key(cfg.keyOf(u))))
    ensures s.syncs == map[] && s.cache == map[cfg.keyOf(u) := Entry(1, Some(Copy(u, true, {BOUQUET})))]
    ensures Live(s, cfg.keyOf(u)) && s.current[cfg.keyOf(u)] == 1
  {
    var key := cfg.keyOf(u);
    var s1 := Write(s0, key, Copy(u, false, {BOUQUET}));
    var s2 := Write(s1, key, Copy(u, true, {BOUQUET}));
    var s3 := s2.(cache := s2.cache[key := Entry(1, Some(Copy(u, true, {BOUQUET})))]);
    s := s3.(queue := s3.queue.(q := Q.Add(s3.queue.q, Q.Key(key))));
    NoStep(cfg, s0);
    assert RequestDelete(s1, key, s2) && AdvanceCache(s2, key, 1, s3);
    AndThen(cfg, s0, s0, Created(key, Copy(u, false, {BOUQUET})), s1);
    AndThen(cfg, s0, s1, DeleteRequested(key), s2);
    AndThen(cfg, s0, s2, CacheAdvanced(key, 1), s3);
    AndThen(cfg, s0, s3, QueueMoved(Q.Added(Q.Key(key))), s);
  }

  lemma DeletedInstanceIsSynced(cfg: Config, s0: State, u: nat) returns (s: State)
    requires cfg.workers > 0 && Init(cfg, s0)
    ensures Path(cfg, s0, s) && s.syncs == map[0 := Sync(cfg.keyOf(u), 1, Copy(u, true, {BOUQUET}), Start)]
    ensures Live(s, cfg.keyOf(u)) && s.current[cfg.keyOf(u)] == 1
  {
    var item := Q.Key(cfg.keyOf(u));
    var t := DeletedInstanceIsQueued(cfg, s0, u);
    s := t.(queue := Q.Move(t.queue, 0, Q.Syncing(item), Q.Get(t.queue.q)), syncs := Joined(t, 0, item));
    assert StartSync(t, 0, s);
    AndThen(cfg, s0, t, SyncStarted(0), s);
  }

  /** Whatever mappable objects an incarnation renders, some run brings a worker to the Update
      that takes its finalizer, with the resource version the server has. */
  lemma UpdateIsReachable(cfg: Config, s0: State, u: nat) returns (s: State)
    requires cfg.workers > 0 && Init(cfg, s0) && forall o :: o in cfg.objects(u) ==> o.gvk in cfg.env(u).scopes
    ensures Path(cfg, s0, s) && Accepts(s, 0) && s.syncs[0].phase.Finalizing? && s.syncs[0].copy.uid == u
  {
    var t := DeletedInstanceIsSynced(cfg, s0, u);
    var todo := cfg.objects(u);
    var known := cfg.env(u).scopes.Keys;
    var faults := seq(|todo|, _ => NoFault);
    ReconcileIsARun(cfg, t, 0, todo, known, faults);
    DeleteRemovesExactly(cfg.env(u), known, t.target, todo, faults);
    s := AfterPass(cfg, t, 0, Delete, todo, known, faults);
    Concat(cfg, s0, t, s);
  }

  /** Finalization does happen: some run ends with a worker taking the finalizer. */
  lemma FinalizationIsReachable(cfg: Config, s0: State, u: nat)
    requires cfg.workers > 0 && Init(cfg, s0) && forall o :: o in cfg.objects(u) ==> o.gvk in cfg.env(u).scopes
    ensures exists s, l, s' :: Path(cfg, s0, s) && Next(cfg, s, l, s') && Finalizes(s, l, u)
  {
    var s := UpdateIsReachable(cfg, s0, u);
    assert Next(cfg, s, UpdateSent(0, NoFault), AfterUpdate(s, 0, NoFault)) && Finalizes(s, UpdateSent(0, NoFault), u);
  }

  /** And so does the failure: some run loses an Update the server would have accepted. */
  lemma LostUpdateIsReachable(cfg: Config, s0: State, u: nat)
    requires cfg.workers > 0 && Init(cfg, s0) && forall o :: o in cfg.objects(u) ==> o.gvk in cfg.env(u).scopes
    ensures exists s, w, s' :: Path(cfg, s0, s) && Accepts(s, w) && s.syncs[w].copy.uid == u && Next(cfg, s, UpdateSent(w, Lost), s')
  {
    var s := UpdateIsReachable(cfg, s0, u);
    assert Next(cfg, s, UpdateSent(0, Lost), AfterUpdate(s, 0, Lost));
  }
}
