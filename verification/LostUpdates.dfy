/** What a failed Update of the finalizer leaves behind: the cached object has lost the
    finalizer before the server was asked. */
module LostUpdates {
  import opened Cluster
  import opened Reconciler
  import opened ReconcilerInvariant
  import opened ReconcilerFrames

  /** The cache shows `key` as spent, and so does every worker on it. */
  ghost predicate LooksDone(s: State, key: string, e: Entry) {
    && key in s.cache && s.cache[key] == e && e.copy.Some? && Spent(e.copy.value)
    && forall w :: w in s.syncs && s.syncs[w].key == key ==> Retired(s.syncs[w])
  }

  predicate ActsOn(s: State, l: Label, key: string) {
    (l.Called? || l.UpdateSent?) && l.w in s.syncs && s.syncs[l.w].key == key
  }

  /** A worker that finds nothing to do neither calls nor sends an Update. */
  lemma RetiredIsIdle(cfg: Config, s: State, l: Label, s': State)
    requires Next(cfg, s, l, s') && Inside(l) && Retired(s.syncs[l.w])
    ensures !l.PassEnded? && !l.Called? && !l.UpdateSent? && Retired(s'.syncs[l.w])
  {
    ActingPhase(cfg, s, l, s');
  }

  lemma LooksDoneStep(cfg: Config, s: State, l: Label, s': State, key: string, e: Entry)
    requires LooksDone(s, key, e) && Next(cfg, s, l, s') && !(l.CacheAdvanced? && l.key == key)
    ensures LooksDone(s', key, e) && !ActsOn(s, l, key)
  {
    if Outside(l) {
      OutsideFrame(cfg, s, l, s');
    } else if Inside(l) {
      InsideFrame(cfg, s, l, s');
      if s.syncs[l.w].key == key {
        RetiredIsIdle(cfg, s, l, s');
      }
    } else if l.SyncStarted? {
      StartFrame(cfg, s, l, s');
    } else if l.SyncEnded? {
      EndFrame(cfg, s, l, s');
    }
  }

  /** A worker's Update is lost on its way. The server still shows the finalizer, but from
      then on every reconcile of the cached object finds nothing to do: no call and no
      Update is made for the key until the cache moves to another version. */
  lemma {:induction false} LostUpdateIsNotRetried(cfg: Config, r: Run, i: nat, j: nat, key: string, e: Entry)
    requires Disjoint(cfg) && RunOf(cfg, r) && i < j < |r.states|
    requires r.labels[i].UpdateSent? && r.labels[i].fault == Lost && Accepts(r.states[i], r.labels[i].w)
    requires key == r.states[i].syncs[r.labels[i].w].key && key in r.states[i].cache && e == r.states[i].cache[key]
    requires forall k :: i < k < j ==> !(r.labels[k].CacheAdvanced? && r.labels[k].key == key)
    ensures Live(r.states[i + 1], key) && BOUQUET in Current(r.states[i + 1], key).finalizers
    ensures LooksDone(r.states[j], key, e)
    ensures forall k :: i < k < j ==> !ActsOn(r.states[k], r.labels[k], key)
  {
    var s, l := r.states[i], r.labels[i];
    if i + 1 == j {
      InvOfRun(cfg, r, i);
      ActingPhase(cfg, s, l, r.states[j]);
      LostUpdateStep(cfg, s, l.w, key);
      assert r.states[j] == AfterUpdate(s, l.w, Lost) == Advance(s, l.w, Finished(false));
    } else {
      LostUpdateIsNotRetried(cfg, r, i, j - 1, key, e);
      LooksDoneStep(cfg, r.states[j - 1], r.labels[j - 1], r.states[j], key, e);
    }
  }

  lemma LostUpdateStep(cfg: Config, s: State, w: nat, key: string)
    requires QueueLink(s.queue, s.syncs) && LogInv(cfg, s.log, s.current)
    requires CacheInv(s.log, s.cache) && SyncInv(cfg, s.log, s.cache, s.syncs)
    requires Accepts(s, w) && s.syncs[w].phase.Finalizing? && key == s.syncs[w].key && key in s.cache
    ensures BOUQUET in Current(s, key).finalizers
    ensures LooksDone(Advance(s, w, Finished(false)), key, s.cache[key])
  {
    UpdateIsAWrite(cfg, s, w);
    SpentLooksDone(s, w);
  }

  lemma SpentLooksDone(s: State, w: nat)
    requires QueueLink(s.queue, s.syncs) && w in s.syncs && Spent(s.syncs[w].copy)
    requires s.syncs[w].key in s.cache && s.cache[s.syncs[w].key].copy == Some(s.syncs[w].copy)
    ensures LooksDone(Advance(s, w, Finished(false)), s.syncs[w].key, s.cache[s.syncs[w].key])
  {
    forall v | v in s.syncs && s.syncs[v].key == s.syncs[w].key
      ensures v == w
    {
      OneSyncPerKey(s.queue, s.syncs, v, w);
    }
  }

  // ----- exactly which failures leave nothing to retry

  /** Ahead of a worker the cache holds what the server logged: only the worker itself
      could have written to the object, and it holds an older one. */
  ghost predicate Untouched(log: Log, cache: Cache, y: Sync) {
    y.key in cache && y.rev < cache[y.key].rev ==>
      var e := cache[y.key];
      e.rev < |log| && e.copy == Logged(log[e.rev])
  }

  ghost predicate AllUntouched(s: State) {
    forall w :: w in s.syncs ==> Untouched(s.log, s.cache, s.syncs[w])
  }

  ghost predicate Grows(log: Log, log': Log) {
    log' == log || (log' != [] && log'[..|log'| - 1] == log && (log'[|log|].gone ==> Gone(log'[|log|].copy)))
  }

  lemma LogGrows(cfg: Config, s: State, l: Label, s': State)
    requires Next(cfg, s, l, s')
    ensures Grows(s.log, s'.log)
  {
  }

  lemma LongerLog(log: Log, log': Log, cache: Cache, y: Sync)
    requires Untouched(log, cache, y) && Grows(log, log')
    ensures Untouched(log', cache, y)
  {
    if log' != log {
      assert forall i :: 0 <= i < |log| ==> log'[i] == log'[..|log'| - 1][i];
    }
  }

  lemma TouchedElsewhere(s: State, w: nat, s': State)
    requires QueueLink(s.queue, s.syncs) && AllUntouched(s) && Touched(s, w, s')
    ensures forall v :: v in s'.syncs ==> Untouched(s.log, s'.cache, s'.syncs[v])
  {
    forall v | v in s'.syncs
      ensures Untouched(s.log, s'.cache, s'.syncs[v])
    {
      assert Untouched(s.log, s.cache, s.syncs[v]);
      if s.syncs[v].key == s.syncs[w].key {
        OneSyncPerKey(s.queue, s.syncs, v, w);
      }
    }
  }

  lemma SameCacheUntouched(s: State, s': State)
    requires AllUntouched(s) && SameCache(s, s')
    ensures forall v :: v in s'.syncs ==> Untouched(s.log, s'.cache, s'.syncs[v])
  {
    forall v | v in s'.syncs
      ensures Untouched(s.log, s'.cache, s'.syncs[v])
    {
      if v in s.syncs {
        assert Untouched(s.log, s.cache, s.syncs[v]);
      }
    }
  }

  lemma AdvancedUntouched(s: State, key: string, rev: nat, s': State)
    requires AllUntouched(s) && Advanced(s, key, rev, s')
    ensures forall v :: v in s'.syncs ==> Untouched(s.log, s'.cache, s'.syncs[v])
  {
  }

  lemma UntouchedStep(cfg: Config, s: State, l: Label, s': State)
    requires QueueLink(s.queue, s.syncs) && AllUntouched(s) && Next(cfg, s, l, s')
    ensures AllUntouched(s')
  {
    LogGrows(cfg, s, l, s');
    CacheMoves(cfg, s, l, s');
    if l.CacheAdvanced? {
      AdvancedUntouched(s, l.key, l.rev, s');
    } else if l.PassEnded? {
      TouchedElsewhere(s, l.w, s');
    } else {
      SameCacheUntouched(s, s');
    }
    forall w | w in s'.syncs
      ensures Untouched(s'.log, s'.cache, s'.syncs[w])
    {
      LongerLog(s.log, s'.log, s'.cache, s'.syncs[w]);
    }
  }

  /** A version that removed its object was being deleted with no finalizer left. */
  ghost predicate GoneWhenFinalized(log: Log) {
    forall i :: 0 <= i < |log| && log[i].gone ==> Gone(log[i].copy)
  }

  lemma GoneStays(log: Log, log': Log)
    requires GoneWhenFinalized(log) && Grows(log, log')
    ensures GoneWhenFinalized(log')
  {
    if log' != log {
      assert forall i :: 0 <= i < |log| ==> log'[i] == log'[..|log'| - 1][i];
    }
  }

  lemma {:induction false} GoneInRun(cfg: Config, r: Run, i: nat)
    requires RunOf(cfg, r) && i < |r.states|
    ensures GoneWhenFinalized(r.states[i].log)
  {
    if i > 0 {
      GoneInRun(cfg, r, i - 1);
      LogGrows(cfg, r.states[i - 1], r.labels[i - 1], r.states[i]);
      GoneStays(r.states[i - 1].log, r.states[i].log);
    }
  }

  lemma LinkInRun(cfg: Config, r: Run, i: nat)
    requires Disjoint(cfg) && RunOf(cfg, r) && i < |r.labels|
    ensures QueueLink(r.states[i].queue, r.states[i].syncs) && Next(cfg, r.states[i], r.labels[i], r.states[i + 1])
  {
    InvOfRun(cfg, r, i);
  }

  lemma {:induction false} UntouchedInRun(cfg: Config, r: Run, i: nat)
    requires Disjoint(cfg) && RunOf(cfg, r) && i < |r.states|
    ensures AllUntouched(r.states[i])
  {
    if i > 0 {
      UntouchedInRun(cfg, r, i - 1);
      LinkInRun(cfg, r, i - 1);
      UntouchedStep(cfg, r.states[i - 1], r.labels[i - 1], r.states[i]);
    }
  }

  /** The cache shows a version of the key that has work left, or a newer one is on its way. */
  ghost predicate StillOpen(s: State, key: string) {
    && key in s.cache
    && var e := s.cache[key];
    && ((e.copy.Some? && !Spent(e.copy.value)) || exists rev :: e.rev < rev < |s.log| && s.log[rev].key == key)
  }

  /** When an Update fails and the server keeps the finalizer, the key stays open, with no
      help from any other writer, exactly if the Update was a conflict. */
  lemma FailedUpdateStaysOpenIff(cfg: Config, r: Run, i: nat, key: string)
    requires Disjoint(cfg) && RunOf(cfg, r) && i < |r.labels| && r.labels[i].UpdateSent?
    requires var s, l := r.states[i], r.labels[i];
             l.w in s.syncs && key == s.syncs[l.w].key && !Finalizes(s, l, s.syncs[l.w].copy.uid)
    requires Live(r.states[i + 1], key) && BOUQUET in Current(r.states[i + 1], key).finalizers
    ensures StillOpen(r.states[i + 1], key) <==> !Accepts(r.states[i], r.labels[i].w)
  {
    var s, l, s' := r.states[i], r.labels[i], r.states[i + 1];
    InvOfRun(cfg, r, i);
    UntouchedInRun(cfg, r, i);
    GoneInRun(cfg, r, i);
    assert Next(cfg, s, l, s');
    assert s'.log == s.log && s'.current == s.current && s'.cache == s.cache;
    OpenIff(cfg, s, l.w);
  }

  lemma OpenIff(cfg: Config, s: State, w: nat)
    requires LogInv(cfg, s.log, s.current) && CacheInv(s.log, s.cache) && SyncInv(cfg, s.log, s.cache, s.syncs) && AllUntouched(s)
    requires GoneWhenFinalized(s.log) && w in s.syncs && s.syncs[w].phase.Finalizing?
    requires Live(s, s.syncs[w].key) && BOUQUET in Current(s, s.syncs[w].key).finalizers
    ensures StillOpen(s, s.syncs[w].key) <==> !Accepts(s, w)
  {
    var y := s.syncs[w];
    var e, last := s.cache[y.key], s.current[y.key];
    assert PhaseOk(cfg, s.log, y) && Reads(s.cache, y) && EntryOk(s.log, y.key, e) && Untouched(s.log, s.cache, y);
    assert y.rev <= e.rev <= last;
    OpenFrom(s, y, last);
  }

  /** The cache stands between the worker's version and the last one. */
  lemma OpenFrom(s: State, y: Sync, last: nat)
    requires y.key in s.cache && y.rev <= s.cache[y.key].rev <= last < |s.log| && s.log[last].key == y.key
    requires forall j :: last < j < |s.log| ==> s.log[j].key != y.key
    requires !s.log[last].gone && BOUQUET in s.log[last].copy.finalizers && Spent(y.copy)
    requires y.rev == s.cache[y.key].rev ==> s.cache[y.key].copy == Some(y.copy)
    requires y.rev < s.cache[y.key].rev == last ==> s.cache[y.key].copy == Some(s.log[last].copy)
    ensures StillOpen(s, y.key) <==> y.rev != last
  {
    var e := s.cache[y.key];
    if e.rev < last {
      assert s.log[last].key == y.key;
    }
  }
}
