/** What the steps of the instance controller leave alone. */
module ReconcilerFrames {
  import opened Cluster
  import opened Reconciler

  /** Steps of users, the server, the targets and the queue. */
  predicate Outside(l: Label) {
    l.Created? || l.Edited? || l.DeleteRequested? || l.TargetChanged? || l.QueueMoved?
  }

  /** Steps inside a sync, from its start to its result. */
  predicate Inside(l: Label) {
    l.SyncFailed? || l.NothingToDo? || l.PassStarted? || l.Called? || l.PassEnded? || l.UpdateSent?
  }

  predicate SameSync(y: Sync, y': Sync) {
    y'.key == y.key && y'.rev == y.rev && y'.copy.uid == y.copy.uid
  }

  /** Worker `w` moved on in its sync and the others did not. */
  predicate OnlyMoves(s: State, w: nat, s': State) {
    && w in s.syncs && w in s'.syncs && SameSync(s.syncs[w], s'.syncs[w])
    && s'.syncs == s.syncs[w := s'.syncs[w]]
  }

  lemma OutsideFrame(cfg: Config, s: State, l: Label, s': State)
    requires Next(cfg, s, l, s') && Outside(l)
    ensures s'.cache == s.cache && s'.syncs == s.syncs && s'.finalized == s.finalized
  {
  }

  lemma AdvanceMoves(s: State, w: nat, phase: Phase)
    requires w in s.syncs
    ensures OnlyMoves(s, w, Advance(s, w, phase))
  {
  }

  /** At most the object the worker was given changes in the cache, at its version. */
  predicate OnlyTouches(cache: map<string, Entry>, y: Sync, cache': map<string, Entry>) {
    && cache'.Keys == cache.Keys
    && forall k :: k in cache && cache'[k] != cache[k] ==> k == y.key && cache[k].rev == y.rev && cache'[k].rev == y.rev
  }

  lemma TakeMoves(s: State, w: nat)
    requires w in s.syncs
    ensures OnlyMoves(s, w, TakeFinalizer(s, w)) && OnlyTouches(s.cache, s.syncs[w], TakeFinalizer(s, w).cache)
  {
  }

  lemma UpdateMoves(s: State, w: nat, fault: Fault)
    requires w in s.syncs
    ensures OnlyMoves(s, w, AfterUpdate(s, w, fault)) && AfterUpdate(s, w, fault).cache == s.cache
  {
  }

  /** An Update that arrives at its version is stored, whatever becomes of the reply. */
  lemma UpdateLands(s: State, w: nat, fault: Fault)
    requires Accepts(s, w) && fault != Lost
    ensures var y, s' := s.syncs[w], AfterUpdate(s, w, fault);
            && s'.log == s.log + [Event(y.key, y.copy, Gone(y.copy))]
            && s'.current == (if Gone(y.copy) then s.current - {y.key} else s.current[y.key := |s.log|])
            && s'.target == s.target && s'.finalized == s.finalized[y.copy.uid := |s.log|]
  {
  }

  lemma InsideFrame(cfg: Config, s: State, l: Label, s': State)
    requires Next(cfg, s, l, s') && Inside(l)
    ensures OnlyMoves(s, l.w, s')
    ensures OnlyTouches(s.cache, s.syncs[l.w], s'.cache) && (!l.PassEnded? ==> s'.cache == s.cache)
    ensures !l.UpdateSent? ==> s'.finalized == s.finalized
  {
    if l.UpdateSent? {
      UpdateMoves(s, l.w, l.fault);
    } else if l.PassEnded? {
      EndPassMoves(s, l.w, s');
    } else {
      AdvanceMoves(s, l.w, s'.syncs[l.w].phase);
    }
  }

  lemma EndPassMoves(s: State, w: nat, s': State)
    requires EndPass(s, w, s')
    ensures OnlyMoves(s, w, s') && OnlyTouches(s.cache, s.syncs[w], s'.cache) && s'.finalized == s.finalized
  {
    TakeMoves(s, w);
    AdvanceMoves(s, w, s'.syncs[w].phase);
  }

  /** A sync that starts reads the cache as it is. */
  lemma StartFrame(cfg: Config, s: State, l: Label, s': State)
    requires Next(cfg, s, l, s') && l.SyncStarted?
    ensures s'.cache == s.cache && s'.finalized == s.finalized && l.w !in s.syncs
    ensures s'.syncs == s.syncs || (l.w in s'.syncs && s'.syncs == s.syncs[l.w := s'.syncs[l.w]])
    ensures l.w in s'.syncs ==>
              var y := s'.syncs[l.w];
              y.phase == Start && y.key in s.cache && s.cache[y.key] == Entry(y.rev, Some(y.copy))
  {
  }

  /** A sync that ends is forgotten or failed, as its result says. */
  lemma EndFrame(cfg: Config, s: State, l: Label, s': State)
    requires Next(cfg, s, l, s') && l.SyncEnded?
    ensures s'.cache == s.cache && s'.syncs == s.syncs - {l.w} && s'.finalized == s.finalized
    ensures l.w in s.syncs && l.w < |s'.queue.pc|
            && if s.syncs[l.w].phase == Finished(true) then s'.queue.pc[l.w].Forgot? else s'.queue.pc[l.w].Failed?
  {
  }

  /** The cache stays, and every sync is an old one or reads what the cache holds. */
  predicate SameCache(s: State, s': State) {
    && s'.cache == s.cache
    && forall w :: w in s'.syncs ==>
         if w in s.syncs then SameSync(s.syncs[w], s'.syncs[w])
         else s'.syncs[w].key in s.cache && s.cache[s'.syncs[w].key].rev == s'.syncs[w].rev
  }

  predicate Touched(s: State, w: nat, s': State) {
    OnlyMoves(s, w, s') && OnlyTouches(s.cache, s.syncs[w], s'.cache)
  }

  function Logged(e: Event): Option<Copy> {
    if e.gone then None else Some(e.copy)
  }

  predicate Advanced(s: State, key: string, rev: nat, s': State) {
    s'.syncs == s.syncs && rev < |s.log| && s'.cache == s.cache[key := Entry(rev, Logged(s.log[rev]))]
  }

  /** The cache moves only by an advance and by the write to the object of a worker. */
  lemma CacheMoves(cfg: Config, s: State, l: Label, s': State)
    requires Next(cfg, s, l, s')
    ensures if l.CacheAdvanced? then Advanced(s, l.key, l.rev, s')
            else if l.PassEnded? then Touched(s, l.w, s')
            else SameCache(s, s')
  {
    if Outside(l) {
      OutsideFrame(cfg, s, l, s');
    } else if Inside(l) {
      InsideFrame(cfg, s, l, s');
    } else if l.SyncStarted? {
      StartFrame(cfg, s, l, s');
    } else if l.SyncEnded? {
      EndFrame(cfg, s, l, s');
    }
  }

  /** In which phase a worker starts a pass, calls, or sends the Update. */
  lemma ActingPhase(cfg: Config, s: State, l: Label, s': State)
    requires Next(cfg, s, l, s')
    ensures l.PassStarted? ==> l.w in s.syncs && (s.syncs[l.w].copy.deleting ==> BOUQUET in s.syncs[l.w].copy.finalizers)
    ensures l.Called? ==> l.w in s.syncs && Passing(s.syncs[l.w].phase)
    ensures l.UpdateSent? ==> l.w in s.syncs && s.syncs[l.w].phase.Finalizing?
  {
  }
}
