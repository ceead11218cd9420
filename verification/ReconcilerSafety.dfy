/** What the finalizer protocol guarantees along every run. */
module ReconcilerSafety {
  import opened Cluster
  import opened Reconciler
  import opened ReconcilerInvariant
  import opened ReconcilerFrames

  /** Before the Update nothing the incarnation renders is in the target, and no worker has
      taken the finalizer yet. */
  lemma FinalizingIsClean(cfg: Config, s: State, w: nat)
    requires SyncInv(cfg, s.log, s.cache, s.syncs) && CleanInv(cfg, s.target, s.syncs)
    requires FinalInv(cfg, s.log, s.cache, s.syncs, s.finalized)
    requires w in s.syncs && s.syncs[w].phase.Finalizing?
    ensures forall id :: id in s.target ==> !Owns(cfg, s.syncs[w].copy.uid, id)
    ensures s.syncs[w].copy.uid !in s.finalized
  {
    var y := s.syncs[w];
    assert PhaseOk(cfg, s.log, y) && CleanOk(cfg, s.target, y);
    assert Absent(cfg, y.copy.uid, s.target, []);
    assert !Retired(y) && (y.copy.uid in s.finalized ==> WorkerFinal(s.syncs, y.copy.uid));
  }

  /** When a worker takes the finalizer of an incarnation, nothing the incarnation renders
      is in the target; the server's copy loses that finalizer and nothing else; and it
      is the first time. */
  lemma FinalizingStep(cfg: Config, s: State, l: Label, s': State, u: nat)
    requires Inv(cfg, s) && Next(cfg, s, l, s') && Finalizes(s, l, u)
    ensures forall id :: id in s'.target ==> !Owns(cfg, u, id)
    ensures u !in s.finalized && u in s'.finalized
    ensures var key := s.syncs[l.w].key;
            var before := Current(s, key);
            && before.uid == u && before.deleting && BOUQUET in before.finalizers
            && s'.log == s.log + [Event(key, before.(finalizers := before.finalizers - {BOUQUET}), before.finalizers == {BOUQUET})]
            && s'.current == (if before.finalizers == {BOUQUET} then s.current - {key} else s.current[key := |s.log|])
  {
    ActingPhase(cfg, s, l, s');
    FinalizingIsClean(cfg, s, l.w);
    UpdateIsAWrite(cfg, s, l.w);
    UpdateLands(s, l.w, l.fault);
    DeletedCopies(cfg, s, l.w);
  }

  lemma DeletedCopies(cfg: Config, s: State, w: nat)
    requires SyncInv(cfg, s.log, s.cache, s.syncs) && w in s.syncs && s.syncs[w].phase.Finalizing?
    ensures s.syncs[w].copy.deleting
    ensures forall f: set<string> :: BOUQUET in f ==> (f - {BOUQUET} == {} <==> f == {BOUQUET})
  {
    assert PhaseOk(cfg, s.log, s.syncs[w]);
  }

  lemma FinalizedGrows(cfg: Config, s: State, l: Label, s': State, u: nat)
    requires Next(cfg, s, l, s') && u in s.finalized
    ensures u in s'.finalized
  {
    if Outside(l) {
      OutsideFrame(cfg, s, l, s');
    } else if Inside(l) {
      InsideFrame(cfg, s, l, s');
    } else if l.SyncStarted? {
      StartFrame(cfg, s, l, s');
    } else if l.SyncEnded? {
      EndFrame(cfg, s, l, s');
    }
  }

  lemma {:induction false} FinalizedForGood(cfg: Config, r: Run, i: nat, j: nat, u: nat)
    requires Disjoint(cfg) && RunOf(cfg, r) && i < j < |r.states| && Finalizes(r.states[i], r.labels[i], u)
    ensures u in r.states[j].finalized
  {
    if i + 1 == j {
      InvOfRun(cfg, r, i);
      FinalizingStep(cfg, r.states[i], r.labels[i], r.states[j], u);
    } else {
      FinalizedForGood(cfg, r, i, j - 1, u);
      FinalizedGrows(cfg, r.states[j - 1], r.labels[j - 1], r.states[j], u);
    }
  }

  /** Nobody starts a pass, calls or sends an Update for a finalized incarnation again. */
  lemma FinalizedIsOver(cfg: Config, s: State, l: Label, s': State, u: nat)
    requires WorkerFinal(s.syncs, u) && Next(cfg, s, l, s')
    ensures !Starts(s, l, u) && !Calls(s, l, u) && !Finalizes(s, l, u)
  {
    ActingPhase(cfg, s, l, s');
  }

  lemma OthersMoveNoTarget(cfg: Config, s: State, l: Label, s': State)
    requires Next(cfg, s, l, s') && !l.Called? && !l.TargetChanged?
    ensures s'.target == s.target
  {
  }

  /** Whatever appears in a target among the identities of `u` was put there by a call on
      behalf of an incarnation under the same key. */
  lemma AdditionsAreOwnCalls(cfg: Config, s: State, l: Label, s': State, u: nat, id: Id)
    requires Disjoint(cfg) && Inv(cfg, s) && Next(cfg, s, l, s')
    requires Owns(cfg, u, id) && id in s'.target && id !in s.target
    ensures exists v :: Calls(s, l, v) && cfg.keyOf(v) == cfg.keyOf(u)
  {
    if l.Called? {
      CallerKeepsClean(cfg, s, l.w, l.known, l.fault, s');
      var v := s.syncs[l.w].copy.uid;
      assert Owns(cfg, v, id);
      assert Calls(s, l, v);
    } else if !l.TargetChanged? {
      OthersMoveNoTarget(cfg, s, l, s');
    }
  }

  /** At step `j` nobody starts a pass or calls for `u`, and what comes back under its identities is the
      doing of another incarnation of the same key. */
  ghost predicate LeftAlone(cfg: Config, r: Run, j: nat, u: nat)
    requires RunOf(cfg, r) && j < |r.labels|
  {
    && !Starts(r.states[j], r.labels[j], u) && !Calls(r.states[j], r.labels[j], u)
    && forall id :: Owns(cfg, u, id) && id in r.states[j + 1].target && id !in r.states[j].target ==>
         exists v :: v != u && cfg.keyOf(v) == cfg.keyOf(u) && Calls(r.states[j], r.labels[j], v)
  }

  lemma LeftAloneAfterwards(cfg: Config, r: Run, i: nat, j: nat, u: nat)
    requires Disjoint(cfg) && RunOf(cfg, r) && i < j < |r.labels| && Finalizes(r.states[i], r.labels[i], u)
    ensures LeftAlone(cfg, r, j, u)
  {
    InvOfRun(cfg, r, j);
    FinalizedForGood(cfg, r, i, j, u);
    FinalizedIsOver(cfg, r.states[j], r.labels[j], r.states[j + 1], u);
    forall id | Owns(cfg, u, id) && id in r.states[j + 1].target && id !in r.states[j].target
      ensures exists v :: v != u && cfg.keyOf(v) == cfg.keyOf(u) && Calls(r.states[j], r.labels[j], v)
    {
      AdditionsAreOwnCalls(cfg, r.states[j], r.labels[j], r.states[j + 1], u, id);
    }
  }

  /** Cleanup safety over whole runs: the moment a worker takes the finalizer of `u` the
      target is clean of `u`, and at every later step `u` is left alone. */
  lemma CleanupIsSafe(cfg: Config, r: Run, i: nat, u: nat)
    requires Disjoint(cfg) && RunOf(cfg, r) && i < |r.labels| && Finalizes(r.states[i], r.labels[i], u)
    ensures forall id :: id in r.states[i + 1].target ==> !Owns(cfg, u, id)
    ensures forall j :: i < j < |r.labels| ==> LeftAlone(cfg, r, j, u)
  {
    InvOfRun(cfg, r, i);
    FinalizingStep(cfg, r.states[i], r.labels[i], r.states[i + 1], u);
    forall j | i < j < |r.labels|
      ensures LeftAlone(cfg, r, j, u)
    {
      LeftAloneAfterwards(cfg, r, i, j, u);
    }
  }

  /** Exactly-once finalization: two different steps never both finalize one incarnation. */
  lemma FinalizedAtMostOnce(cfg: Config, r: Run, i: nat, j: nat, u: nat)
    requires Disjoint(cfg) && RunOf(cfg, r) && i < j < |r.labels|
    requires Finalizes(r.states[i], r.labels[i], u)
    ensures !Finalizes(r.states[j], r.labels[j], u)
  {
    InvOfRun(cfg, r, j);
    FinalizedForGood(cfg, r, i, j, u);
    FinalizedIsOver(cfg, r.states[j], r.labels[j], r.states[j + 1], u);
  }
}
