/** What every step of the instance controller keeps. */
module ReconcilerInvariant {
  import opened Cluster
  import opened Reconciler
  import opened ReconcilerFrames
  import Q = WorkQueue

  type Log = seq<Event>
  type Cache = map<string, Entry>
  type Syncs = map<nat, Sync>

  /** Being deleted, and without the finalizer. */
  predicate Spent(c: Copy) {
    c.deleting && BOUQUET !in c.finalizers
  }

  /** The server's history: keys match incarnations, a deletion timestamp never clears,
      and `current` is the last version of its key. */
  ghost predicate LogInv(cfg: Config, log: Log, current: map<string, nat>) {
    && (forall i :: 0 <= i < |log| ==> cfg.keyOf(log[i].copy.uid) == log[i].key)
    && (forall i, j :: 0 <= i < j < |log| && log[i].copy.uid == log[j].copy.uid && log[i].copy.deleting ==> log[j].copy.deleting)
    && (forall k :: k in current ==> current[k] < |log| && log[current[k]].key == k)
    && (forall k, j :: k in current && current[k] < j < |log| ==> log[j].key != k)
  }

  /** A copy is the logged version, possibly without the finalizer if it is being deleted. */
  predicate Matches(c: Copy, logged: Copy) {
    && c.uid == logged.uid && c.deleting == logged.deleting
    && (c.finalizers == logged.finalizers || (c.deleting && c.finalizers == logged.finalizers - {BOUQUET}))
  }

  predicate EntryOk(log: Log, k: string, e: Entry) {
    e.rev < |log| && log[e.rev].key == k && (e.copy.Some? ==> Matches(e.copy.value, log[e.rev].copy))
  }

  ghost predicate CacheInv(log: Log, cache: Cache) {
    forall k :: k in cache ==> EntryOk(log, k, cache[k])
  }

  /** Every object of a pass is one the incarnation renders to. */
  ghost predicate PhaseOk(cfg: Config, log: Log, y: Sync) {
    && y.rev < |log| && log[y.rev].key == y.key && Matches(y.copy, log[y.rev].copy)
    && (y.phase.Ensuring? ==> !y.copy.deleting && forall o :: o in y.phase.todo ==> o in cfg.objects(y.copy.uid))
    && (y.phase.Deleting? ==> y.copy.deleting && BOUQUET in y.copy.finalizers)
    && (y.phase.Finalizing? ==> Spent(y.copy) && BOUQUET in log[y.rev].copy.finalizers)
  }

  /** The cache is at least where the worker read it, and there it holds the worker's object. */
  predicate Reads(cache: Cache, y: Sync) {
    && y.key in cache && y.rev <= cache[y.key].rev
    && (cache[y.key].rev == y.rev ==> cache[y.key].copy == Some(y.copy))
  }

  predicate HasItem(q: Q.State, w: nat, y: Sync) {
    w < |q.pc| && q.pc[w] == Q.Syncing(Q.Key(y.key))
  }

  ghost predicate QueueLink(q: Q.State, syncs: Syncs) {
    Q.Inv(q) && forall w :: w in syncs ==> HasItem(q, w, syncs[w])
  }

  ghost predicate SyncInv(cfg: Config, log: Log, cache: Cache, syncs: Syncs) {
    forall w :: w in syncs ==> PhaseOk(cfg, log, syncs[w]) && Reads(cache, syncs[w])
  }

  /** What incarnation `u` renders is mappable and absent, apart from `rest`. */
  ghost predicate Absent(cfg: Config, u: nat, t: Target, rest: seq<Object>) {
    forall o :: o in cfg.objects(u) && o !in rest ==> o.gvk in cfg.env(u).scopes && IdOf(cfg.env(u), o) !in t
  }

  ghost predicate CleanOk(cfg: Config, t: Target, y: Sync) {
    && (y.phase.Deleting? && !y.phase.failed ==> Absent(cfg, y.copy.uid, t, y.phase.todo))
    && (y.phase.Finalizing? ==> Absent(cfg, y.copy.uid, t, []))
  }

  ghost predicate CleanInv(cfg: Config, t: Target, syncs: Syncs) {
    forall w :: w in syncs ==> CleanOk(cfg, t, syncs[w])
  }

  /** From position `from` on, every version of incarnation `u` is spent. */
  ghost predicate SpentFrom(log: Log, u: nat, from: nat) {
    forall j :: from <= j < |log| && log[j].copy.uid == u ==> Spent(log[j].copy)
  }

  /** The server has finalized `u` at version `f`, the cache cannot go back before it, and
      nobody works on `u` any more. */
  ghost predicate LoggedFinal(log: Log, u: nat, f: nat) {
    f < |log| && log[f].copy.uid == u && SpentFrom(log, u, f)
  }

  ghost predicate CachedFinal(cfg: Config, log: Log, cache: Cache, u: nat) {
    && cfg.keyOf(u) in cache
    && var e := cache[cfg.keyOf(u)];
    && SpentFrom(log, u, e.rev + 1) && (e.copy.Some? && e.copy.value.uid == u ==> Spent(e.copy.value))
  }

  predicate Retired(y: Sync) {
    Spent(y.copy) && (y.phase.Start? || y.phase.Finished?)
  }

  ghost predicate WorkerFinal(syncs: Syncs, u: nat) {
    forall w :: w in syncs && syncs[w].copy.uid == u ==> Retired(syncs[w])
  }

  ghost predicate FinalInv(cfg: Config, log: Log, cache: Cache, syncs: Syncs, finalized: map<nat, nat>) {
    forall u :: u in finalized ==>
      LoggedFinal(log, u, finalized[u]) && CachedFinal(cfg, log, cache, u) && WorkerFinal(syncs, u)
  }

  ghost predicate Inv(cfg: Config, s: State) {
    && QueueLink(s.queue, s.syncs)
    && LogInv(cfg, s.log, s.current)
    && CacheInv(s.log, s.cache)
    && SyncInv(cfg, s.log, s.cache, s.syncs)
    && CleanInv(cfg, s.target, s.syncs)
    && FinalInv(cfg, s.log, s.cache, s.syncs, s.finalized)
  }

  /** At most one worker reconciles a key, because the queue hands a key out once. */
  lemma OneSyncPerKey(q: Q.State, syncs: Syncs, v: nat, w: nat)
    requires QueueLink(q, syncs) && v in syncs && w in syncs && syncs[v].key == syncs[w].key
    ensures v == w
  {
    var item := Q.Key(syncs[v].key);
    assert HasItem(q, v, syncs[v]) && HasItem(q, w, syncs[w]);
    assert Q.Holds(q.pc[v], item) && Q.Holds(q.pc[w], item);
  }

  // ----- writes on the server

  /** What every write respects, the worker's Update included. */
  ghost predicate WriteOk(cfg: Config, s: State, key: string, copy: Copy) {
    && cfg.keyOf(copy.uid) == key
    && if Live(s, key) then
         && copy.uid == Current(s, key).uid
         && (Current(s, key).deleting ==> copy.deleting && copy.finalizers <= Current(s, key).finalizers)
       else key !in s.current && forall i :: 0 <= i < |s.log| ==> s.log[i].copy.uid != copy.uid
  }

  lemma WriteKeepsLog(cfg: Config, s: State, key: string, copy: Copy)
    requires LogInv(cfg, s.log, s.current) && WriteOk(cfg, s, key, copy)
    ensures LogInv(cfg, Write(s, key, copy).log, Write(s, key, copy).current)
  {
    forall i | 0 <= i < |s.log| && s.log[i].copy.uid == copy.uid && s.log[i].copy.deleting
      ensures copy.deleting
    {
      assert s.log[i].key == key && Live(s, key) && i <= s.current[key];
    }
  }

  lemma WriteKeepsSpent(cfg: Config, s: State, key: string, copy: Copy, u: nat, f: nat, from: nat)
    requires LogInv(cfg, s.log, s.current) && WriteOk(cfg, s, key, copy) && LoggedFinal(s.log, u, f) && SpentFrom(s.log, u, from)
    ensures LoggedFinal(Write(s, key, copy).log, u, f) && SpentFrom(Write(s, key, copy).log, u, from)
  {
    if copy.uid == u {
      assert s.log[f].key == key && Live(s, key) && f <= s.current[key];
      assert Spent(Current(s, key)) && Spent(copy);
    }
  }

  lemma WriteKeepsFinal(cfg: Config, s: State, key: string, copy: Copy)
    requires LogInv(cfg, s.log, s.current) && FinalInv(cfg, s.log, s.cache, s.syncs, s.finalized) && WriteOk(cfg, s, key, copy)
    ensures FinalInv(cfg, Write(s, key, copy).log, s.cache, s.syncs, s.finalized)
  {
    forall u | u in s.finalized
      ensures LoggedFinal(Write(s, key, copy).log, u, s.finalized[u]) && CachedFinal(cfg, Write(s, key, copy).log, s.cache, u)
    {
      WriteKeepsSpent(cfg, s, key, copy, u, s.finalized[u], s.cache[cfg.keyOf(u)].rev + 1);
    }
  }

  lemma WriteKeepsReaders(cfg: Config, log: Log, e: Event, cache: Cache, syncs: Syncs)
    requires CacheInv(log, cache) && SyncInv(cfg, log, cache, syncs)
    ensures CacheInv(log + [e], cache) && SyncInv(cfg, log + [e], cache, syncs)
  {
    forall k | k in cache
      ensures EntryOk(log + [e], k, cache[k])
    {
      assert EntryOk(log, k, cache[k]);
    }
    forall w | w in syncs
      ensures PhaseOk(cfg, log + [e], syncs[w])
    {
      assert PhaseOk(cfg, log, syncs[w]);
    }
  }

  lemma WriteKeepsInv(cfg: Config, s: State, key: string, copy: Copy)
    requires Inv(cfg, s) && WriteOk(cfg, s, key, copy)
    ensures Inv(cfg, Write(s, key, copy))
  {
    WriteKeepsLog(cfg, s, key, copy);
    WriteKeepsFinal(cfg, s, key, copy);
    WriteKeepsReaders(cfg, s.log, Event(key, copy, Gone(copy)), s.cache, s.syncs);
  }

  // ----- the cache, the targets and the queue

  lemma AdvanceKeepsReaders(cfg: Config, s: State, key: string, rev: nat, s': State)
    requires CacheInv(s.log, s.cache) && SyncInv(cfg, s.log, s.cache, s.syncs) && AdvanceCache(s, key, rev, s')
    ensures CacheInv(s.log, s'.cache) && SyncInv(cfg, s.log, s'.cache, s.syncs)
  {
    forall k | k in s'.cache
      ensures EntryOk(s.log, k, s'.cache[k])
    {
      assert k in s.cache ==> EntryOk(s.log, k, s.cache[k]);
    }
    forall w | w in s.syncs
      ensures PhaseOk(cfg, s.log, s.syncs[w]) && Reads(s'.cache, s.syncs[w])
    {
      assert PhaseOk(cfg, s.log, s.syncs[w]) && Reads(s.cache, s.syncs[w]);
    }
  }

  lemma AdvanceKeepsFinal(cfg: Config, s: State, key: string, rev: nat, s': State)
    requires FinalInv(cfg, s.log, s.cache, s.syncs, s.finalized) && AdvanceCache(s, key, rev, s')
    ensures FinalInv(cfg, s.log, s'.cache, s.syncs, s.finalized)
  {
    forall u | u in s.finalized
      ensures LoggedFinal(s.log, u, s.finalized[u]) && CachedFinal(cfg, s.log, s'.cache, u) && WorkerFinal(s.syncs, u)
    {
      assert CachedFinal(cfg, s.log, s.cache, u);
    }
  }

  lemma CacheAdvancedKeepsInv(cfg: Config, s: State, key: string, rev: nat, s': State)
    requires Inv(cfg, s) && AdvanceCache(s, key, rev, s')
    ensures Inv(cfg, s')
  {
    AdvanceKeepsReaders(cfg, s, key, rev, s');
    AdvanceKeepsFinal(cfg, s, key, rev, s');
  }

  lemma AbsentStays(cfg: Config, u: nat, t: Target, t': Target, rest: seq<Object>)
    requires Absent(cfg, u, t, rest)
    requires forall id :: id in t' && id !in t ==> !Owns(cfg, u, id)
    ensures Absent(cfg, u, t', rest)
  {
    forall o | o in cfg.objects(u) && o !in rest
      ensures IdOf(cfg.env(u), o) !in t'
    {
      assert Owns(cfg, u, IdOf(cfg.env(u), o));
    }
  }

  lemma CleanStays(cfg: Config, t: Target, t': Target, y: Sync)
    requires CleanOk(cfg, t, y)
    requires forall id :: id in t' && id !in t ==> !Owns(cfg, y.copy.uid, id)
    ensures CleanOk(cfg, t', y)
  {
    if y.phase.Deleting? && !y.phase.failed {
      AbsentStays(cfg, y.copy.uid, t, t', y.phase.todo);
    } else if y.phase.Finalizing? {
      AbsentStays(cfg, y.copy.uid, t, t', []);
    }
  }

  lemma TargetChangedKeepsInv(cfg: Config, s: State, t: Target, s': State)
    requires Inv(cfg, s) && ChangeTarget(cfg, s, t, s')
    ensures Inv(cfg, s')
  {
    forall w | w in s.syncs
      ensures CleanOk(cfg, t, s.syncs[w])
    {
      CleanStays(cfg, s.target, t, s.syncs[w]);
    }
  }

  /** A queue step moves the item of at most the worker that takes it. */
  lemma LinkStays(q: Q.State, l: Q.Label, q': Q.State, syncs: Syncs, syncs': Syncs)
    requires QueueLink(q, syncs) && Q.Next(q, l, q')
    requires forall w :: w in syncs' ==>
               if l.Taken? && w == l.w then q.q.waiting[0] == Q.Key(syncs'[w].key)
               else w in syncs && syncs'[w] == syncs[w]
    requires l.Forgotten? || l.Errored? ==> l.w !in syncs'
    ensures QueueLink(q', syncs')
  {
    Q.InvStep(q, l, q');
    forall w | w in syncs'
      ensures HasItem(q', w, syncs'[w])
    {
      if w in syncs {
        assert HasItem(q, w, syncs[w]);
      }
    }
  }

  lemma QueueMovedKeepsInv(cfg: Config, s: State, l: Q.Label, s': State)
    requires Inv(cfg, s) && MoveQueue(s, l, s')
    ensures Inv(cfg, s')
  {
    LinkStays(s.queue, l, s'.queue, s.syncs, s'.syncs);
  }

  lemma FewerSyncs(cfg: Config, s: State, w: nat)
    requires SyncInv(cfg, s.log, s.cache, s.syncs) && CleanInv(cfg, s.target, s.syncs)
    requires FinalInv(cfg, s.log, s.cache, s.syncs, s.finalized)
    ensures SyncInv(cfg, s.log, s.cache, s.syncs - {w}) && CleanInv(cfg, s.target, s.syncs - {w})
    ensures FinalInv(cfg, s.log, s.cache, s.syncs - {w}, s.finalized)
  {
  }

  lemma SyncEndedKeepsInv(cfg: Config, s: State, w: nat, s': State)
    requires Inv(cfg, s) && EndSync(s, w, s')
    ensures Inv(cfg, s')
  {
    LinkStays(s.queue, if s.syncs[w].phase.ok then Q.Forgotten(w) else Q.Errored(w), s'.queue, s.syncs, s'.syncs);
    FewerSyncs(cfg, s, w);
  }

  /** A sync joins with what the cache holds. */
  lemma OneMoreSync(cfg: Config, s: State, w: nat, y: Sync)
    requires LogInv(cfg, s.log, s.current) && CacheInv(s.log, s.cache)
    requires SyncInv(cfg, s.log, s.cache, s.syncs) && CleanInv(cfg, s.target, s.syncs)
    requires FinalInv(cfg, s.log, s.cache, s.syncs, s.finalized)
    requires w !in s.syncs && y.key in s.cache && s.cache[y.key] == Entry(y.rev, Some(y.copy)) && y.phase == Start
    ensures SyncInv(cfg, s.log, s.cache, s.syncs[w := y]) && CleanInv(cfg, s.target, s.syncs[w := y])
    ensures FinalInv(cfg, s.log, s.cache, s.syncs[w := y], s.finalized)
  {
    assert EntryOk(s.log, y.key, s.cache[y.key]);
    forall u | u in s.finalized
      ensures WorkerFinal(s.syncs[w := y], u)
    {
      assert CachedFinal(cfg, s.log, s.cache, u);
      assert cfg.keyOf(s.log[y.rev].copy.uid) == y.key;
    }
  }

  lemma SyncStartedKeepsInv(cfg: Config, s: State, w: nat, s': State)
    requires Inv(cfg, s) && StartSync(s, w, s')
    ensures Inv(cfg, s')
  {
    LinkStays(s.queue, Q.Taken(w), s'.queue, s.syncs, s'.syncs);
    if w in s'.syncs {
      OneMoreSync(cfg, s, w, s'.syncs[w]);
    }
  }

  // ----- a worker's own steps

  lemma OwnStepKeepsLink(q: Q.State, syncs: Syncs, w: nat, y': Sync)
    requires QueueLink(q, syncs) && w in syncs && y'.key == syncs[w].key
    ensures QueueLink(q, syncs[w := y'])
  {
    var syncs' := syncs[w := y'];
    forall v | v in syncs'
      ensures HasItem(q, v, syncs'[v])
    {
      assert HasItem(q, v, syncs[v]);
    }
  }

  lemma OwnStepKeepsFinal(cfg: Config, s: State, w: nat, y': Sync)
    requires FinalInv(cfg, s.log, s.cache, s.syncs, s.finalized)
    requires w in s.syncs && y'.copy.uid == s.syncs[w].copy.uid && (Retired(s.syncs[w]) ==> Retired(y'))
    ensures FinalInv(cfg, s.log, s.cache, s.syncs[w := y'], s.finalized)
  {
    forall u | u in s.finalized
      ensures WorkerFinal(s.syncs[w := y'], u)
    {
      assert WorkerFinal(s.syncs, u);
    }
  }

  lemma OwnStepKeepsSyncs(cfg: Config, s: State, w: nat, y': Sync, t': Target)
    requires SyncInv(cfg, s.log, s.cache, s.syncs) && w in s.syncs
    requires PhaseOk(cfg, s.log, y') && Reads(s.cache, y') && CleanOk(cfg, t', y')
    requires forall v :: v in s.syncs && v != w ==> CleanOk(cfg, t', s.syncs[v])
    ensures SyncInv(cfg, s.log, s.cache, s.syncs[w := y']) && CleanInv(cfg, t', s.syncs[w := y'])
  {
  }

  /** One worker changes what it remembers of its sync, and at most a target moves. */
  lemma OwnStepOn(cfg: Config, s: State, w: nat, y': Sync, t': Target)
    requires Inv(cfg, s) && w in s.syncs && y'.key == s.syncs[w].key && y'.copy.uid == s.syncs[w].copy.uid
    requires PhaseOk(cfg, s.log, y') && Reads(s.cache, y') && CleanOk(cfg, t', y')
    requires Retired(s.syncs[w]) ==> Retired(y')
    requires forall v :: v in s.syncs && v != w ==> CleanOk(cfg, t', s.syncs[v])
    ensures Inv(cfg, s.(syncs := s.syncs[w := y'], target := t'))
  {
    OwnStepKeepsLink(s.queue, s.syncs, w, y');
    OwnStepKeepsFinal(cfg, s, w, y');
    OwnStepKeepsSyncs(cfg, s, w, y', t');
  }

  lemma OwnStep(cfg: Config, s: State, w: nat, y': Sync)
    requires Inv(cfg, s) && w in s.syncs && y'.key == s.syncs[w].key && y'.copy.uid == s.syncs[w].copy.uid
    requires PhaseOk(cfg, s.log, y') && Reads(s.cache, y') && CleanOk(cfg, s.target, y')
    requires Retired(s.syncs[w]) ==> Retired(y')
    ensures Inv(cfg, s.(syncs := s.syncs[w := y']))
  {
    OwnStepOn(cfg, s, w, y', s.target);
  }

  lemma FinishKeepsInv(cfg: Config, s: State, w: nat, ok: bool)
    requires Inv(cfg, s) && w in s.syncs
    ensures Inv(cfg, Advance(s, w, Finished(ok)))
  {
    assert PhaseOk(cfg, s.log, s.syncs[w]) && Reads(s.cache, s.syncs[w]);
    OwnStep(cfg, s, w, s.syncs[w].(phase := Finished(ok)));
  }

  lemma PassStartedKeepsInv(cfg: Config, s: State, w: nat, todo: seq<Object>, s': State)
    requires Inv(cfg, s) && StartPass(cfg, s, w, todo, s')
    ensures Inv(cfg, s')
  {
    var u := s.syncs[w].copy.uid;
    forall o
      ensures o in todo <==> o in cfg.objects(u)
    {
      assert o in todo <==> o in multiset(todo);
      assert o in cfg.objects(u) <==> o in multiset(cfg.objects(u));
    }
    assert PhaseOk(cfg, s.log, s.syncs[w]) && Reads(s.cache, s.syncs[w]);
    OwnStep(cfg, s, w, s'.syncs[w]);
  }

  /** A call on behalf of `u` creates at most one of `u`'s own identities, and a delete
      call that reports no error leaves its object mapped and absent. */
  lemma CallEffect(cfg: Config, verb: Verb, u: nat, known: set<Gvk>, t: Target, o: Object, fault: Fault)
    requires verb.Ensure? ==> o in cfg.objects(u)
    ensures var (t', outcome) := Act(verb, cfg.env(u), known, t, o, fault);
            && (forall id :: id in t' && id !in t ==> verb.Ensure? && Owns(cfg, u, id))
            && (verb.Delete? && Fine(verb, outcome) ==> o.gvk in cfg.env(u).scopes && IdOf(cfg.env(u), o) !in t')
  {
  }

  /** The other workers' keys differ, and so do the identities of their incarnations. */
  lemma OthersKeepClean(cfg: Config, s: State, w: nat, t': Target)
    requires QueueLink(s.queue, s.syncs) && LogInv(cfg, s.log, s.current)
    requires SyncInv(cfg, s.log, s.cache, s.syncs) && CleanInv(cfg, s.target, s.syncs)
    requires Disjoint(cfg) && w in s.syncs
    requires forall id :: id in t' && id !in s.target ==> Owns(cfg, s.syncs[w].copy.uid, id)
    ensures forall v :: v in s.syncs && v != w ==> CleanOk(cfg, t', s.syncs[v])
  {
    forall v | v in s.syncs && v != w
      ensures CleanOk(cfg, t', s.syncs[v])
    {
      var x, y := s.syncs[w], s.syncs[v];
      assert PhaseOk(cfg, s.log, x) && PhaseOk(cfg, s.log, y);
      assert cfg.keyOf(x.copy.uid) == x.key && cfg.keyOf(y.copy.uid) == y.key;
      if x.key == y.key {
        OneSyncPerKey(s.queue, s.syncs, v, w);
      }
      CleanStays(cfg, s.target, t', y);
    }
  }

  /** The calling worker itself: its object is done with, or the pass has failed. */
  lemma CallerKeepsClean(cfg: Config, s: State, w: nat, known: set<Gvk>, fault: Fault, s': State)
    requires SyncInv(cfg, s.log, s.cache, s.syncs) && CleanInv(cfg, s.target, s.syncs) && Call(cfg, s, w, known, fault, s')
    ensures var y, y' := s.syncs[w], s'.syncs[w];
            && y' == y.(phase := y'.phase) && !Retired(y)
            && PhaseOk(cfg, s.log, y') && Reads(s.cache, y') && CleanOk(cfg, s'.target, y')
            && s' == s.(syncs := s.syncs[w := y'], target := s'.target)
            && (forall id :: id in s'.target && id !in s.target ==> Owns(cfg, y.copy.uid, id))
  {
    var y := s.syncs[w];
    var verb := if y.phase.Ensuring? then Ensure else Delete;
    var o, rest := y.phase.todo[0], y.phase.todo[1..];
    assert PhaseOk(cfg, s.log, y) && Reads(s.cache, y) && CleanOk(cfg, s.target, y);
    CallEffect(cfg, verb, y.copy.uid, known, s.target, o, fault);
    assert y.phase.todo == [o] + rest;
  }

  lemma CalledKeepsInv(cfg: Config, s: State, w: nat, known: set<Gvk>, fault: Fault, s': State)
    requires Inv(cfg, s) && Disjoint(cfg) && Call(cfg, s, w, known, fault, s')
    ensures Inv(cfg, s')
  {
    CallerKeepsClean(cfg, s, w, known, fault, s');
    OthersKeepClean(cfg, s, w, s'.target);
    OwnStepOn(cfg, s, w, s'.syncs[w], s'.target);
  }

  lemma TakeKeepsCache(cfg: Config, s: State, w: nat)
    requires CacheInv(s.log, s.cache) && w in s.syncs && PhaseOk(cfg, s.log, s.syncs[w]) && s.syncs[w].phase.Deleting?
    ensures CacheInv(s.log, TakeFinalizer(s, w).cache)
  {
    var s' := TakeFinalizer(s, w);
    forall k | k in s'.cache
      ensures EntryOk(s.log, k, s'.cache[k])
    {
      assert EntryOk(s.log, k, s.cache[k]);
    }
  }

  lemma TakeKeepsSyncs(cfg: Config, s: State, w: nat)
    requires QueueLink(s.queue, s.syncs) && SyncInv(cfg, s.log, s.cache, s.syncs)
    requires w in s.syncs && s.syncs[w].phase.Deleting?
    ensures SyncInv(cfg, s.log, TakeFinalizer(s, w).cache, TakeFinalizer(s, w).syncs)
    ensures QueueLink(s.queue, TakeFinalizer(s, w).syncs)
  {
    var s' := TakeFinalizer(s, w);
    forall v | v in s'.syncs
      ensures PhaseOk(cfg, s.log, s'.syncs[v]) && Reads(s'.cache, s'.syncs[v])
    {
      assert PhaseOk(cfg, s.log, s.syncs[v]) && Reads(s.cache, s.syncs[v]);
      assert PhaseOk(cfg, s.log, s.syncs[w]) && Reads(s.cache, s.syncs[w]);
      if s.syncs[v].key == s.syncs[w].key {
        OneSyncPerKey(s.queue, s.syncs, v, w);
      }
    }
    forall v | v in s'.syncs
      ensures HasItem(s.queue, v, s'.syncs[v])
    {
      assert HasItem(s.queue, v, s.syncs[v]);
    }
  }

  lemma TakeKeepsFinal(cfg: Config, s: State, w: nat)
    requires FinalInv(cfg, s.log, s.cache, s.syncs, s.finalized)
    requires w in s.syncs && PhaseOk(cfg, s.log, s.syncs[w]) && s.syncs[w].phase.Deleting?
    ensures FinalInv(cfg, s.log, TakeFinalizer(s, w).cache, TakeFinalizer(s, w).syncs, s.finalized)
  {
    var s' := TakeFinalizer(s, w);
    forall u | u in s.finalized
      ensures CachedFinal(cfg, s.log, s'.cache, u) && WorkerFinal(s'.syncs, u)
    {
      assert CachedFinal(cfg, s.log, s.cache, u) && WorkerFinal(s.syncs, u);
    }
  }

  lemma TakeFinalizerKeepsInv(cfg: Config, s: State, w: nat)
    requires Inv(cfg, s) && w in s.syncs && s.syncs[w].phase == Deleting([], false)
    ensures Inv(cfg, TakeFinalizer(s, w))
  {
    assert CleanOk(cfg, s.target, s.syncs[w]);
    assert CleanInv(cfg, s.target, TakeFinalizer(s, w).syncs);
    TakeKeepsCache(cfg, s, w);
    TakeKeepsSyncs(cfg, s, w);
    TakeKeepsFinal(cfg, s, w);
  }

  lemma PassEndedKeepsInv(cfg: Config, s: State, w: nat, s': State)
    requires Inv(cfg, s) && EndPass(s, w, s')
    ensures Inv(cfg, s')
  {
    var phase := s.syncs[w].phase;
    if phase.Deleting? && !phase.failed {
      TakeFinalizerKeepsInv(cfg, s, w);
    } else {
      FinishKeepsInv(cfg, s, w, !phase.failed);
    }
  }

  /** The worker's Update is a write like any other. */
  lemma UpdateIsAWrite(cfg: Config, s: State, w: nat)
    requires LogInv(cfg, s.log, s.current) && CacheInv(s.log, s.cache) && SyncInv(cfg, s.log, s.cache, s.syncs)
    requires Accepts(s, w) && s.syncs[w].phase.Finalizing?
    ensures var y := s.syncs[w];
            WriteOk(cfg, s, y.key, y.copy) && Spent(y.copy) && s.cache[y.key] == Entry(y.rev, Some(y.copy))
    ensures var y := s.syncs[w];
            BOUQUET in Current(s, y.key).finalizers && y.copy == Current(s, y.key).(finalizers := Current(s, y.key).finalizers - {BOUQUET})
  {
    var y := s.syncs[w];
    assert PhaseOk(cfg, s.log, y) && Reads(s.cache, y) && EntryOk(s.log, y.key, s.cache[y.key]);
    assert cfg.keyOf(y.copy.uid) == y.key;
  }

  /** At most one worker is on an incarnation. */
  lemma OneSyncPerIncarnation(cfg: Config, s: State, w: nat)
    requires QueueLink(s.queue, s.syncs) && LogInv(cfg, s.log, s.current) && SyncInv(cfg, s.log, s.cache, s.syncs)
    requires w in s.syncs
    ensures forall v :: v in s.syncs && s.syncs[v].copy.uid == s.syncs[w].copy.uid ==> v == w
  {
    var y := s.syncs[w];
    assert PhaseOk(cfg, s.log, y);
    assert cfg.keyOf(s.log[y.rev].copy.uid) == y.key;
    forall v | v in s.syncs && s.syncs[v].copy.uid == y.copy.uid
      ensures v == w
    {
      assert PhaseOk(cfg, s.log, s.syncs[v]);
      assert cfg.keyOf(s.log[s.syncs[v].rev].copy.uid) == s.syncs[v].key;
      OneSyncPerKey(s.queue, s.syncs, v, w);
    }
  }

  /** It finalizes its incarnation: the cache already shows the spent copy, and nothing
      unconsumed lies between it and the new version. */
  lemma UpdateIsFinal(cfg: Config, s: State, w: nat)
    requires LogInv(cfg, s.log, s.current) && CacheInv(s.log, s.cache) && SyncInv(cfg, s.log, s.cache, s.syncs)
    requires Accepts(s, w) && s.syncs[w].phase.Finalizing?
    ensures var y := s.syncs[w];
            var log := Write(s, y.key, y.copy).log;
            LoggedFinal(log, y.copy.uid, |s.log|) && CachedFinal(cfg, log, s.cache, y.copy.uid)
  {
    var y := s.syncs[w];
    UpdateIsAWrite(cfg, s, w);
    NothingNewer(cfg, s, w);
    var log := Write(s, y.key, y.copy).log;
    assert SpentFrom(log, y.copy.uid, |s.log|) && SpentFrom(log, y.copy.uid, y.rev + 1);
  }

  lemma NothingNewer(cfg: Config, s: State, w: nat)
    requires LogInv(cfg, s.log, s.current) && Accepts(s, w) && cfg.keyOf(s.syncs[w].copy.uid) == s.syncs[w].key
    ensures forall j :: s.syncs[w].rev < j < |s.log| ==> s.log[j].copy.uid != s.syncs[w].copy.uid
  {
  }

  lemma OneMoreFinal(cfg: Config, s: State, u: nat, f: nat)
    requires Inv(cfg, s) && LoggedFinal(s.log, u, f) && CachedFinal(cfg, s.log, s.cache, u) && WorkerFinal(s.syncs, u)
    ensures Inv(cfg, s.(finalized := s.finalized[u := f]))
  {
  }

  lemma WriteThenFinish(cfg: Config, s: State, w: nat, ok: bool)
    requires Inv(cfg, s) && Accepts(s, w) && s.syncs[w].phase.Finalizing?
    ensures Inv(cfg, Advance(Write(s, s.syncs[w].key, s.syncs[w].copy), w, Finished(ok)))
  {
    UpdateIsAWrite(cfg, s, w);
    WriteKeepsInv(cfg, s, s.syncs[w].key, s.syncs[w].copy);
    FinishKeepsInv(cfg, Write(s, s.syncs[w].key, s.syncs[w].copy), w, ok);
  }

  lemma UpdateRetires(cfg: Config, s: State, w: nat, ok: bool)
    requires Inv(cfg, s) && Accepts(s, w) && s.syncs[w].phase.Finalizing?
    ensures WorkerFinal(Advance(s, w, Finished(ok)).syncs, s.syncs[w].copy.uid)
  {
    OneSyncPerIncarnation(cfg, s, w);
    assert PhaseOk(cfg, s.log, s.syncs[w]);
  }

  lemma FinalizedKeepsInv(cfg: Config, s: State, w: nat, ok: bool)
    requires Inv(cfg, s) && Accepts(s, w) && s.syncs[w].phase.Finalizing?
    ensures var y := s.syncs[w];
            Inv(cfg, Advance(Write(s, y.key, y.copy), w, Finished(ok)).(finalized := s.finalized[y.copy.uid := |s.log|]))
  {
    var y := s.syncs[w];
    UpdateIsFinal(cfg, s, w);
    UpdateRetires(cfg, s, w, ok);
    WriteThenFinish(cfg, s, w, ok);
    OneMoreFinal(cfg, Advance(Write(s, y.key, y.copy), w, Finished(ok)), y.copy.uid, |s.log|);
  }

  lemma UpdateSentKeepsInv(cfg: Config, s: State, w: nat, fault: Fault, s': State)
    requires Inv(cfg, s) && w in s.syncs && s.syncs[w].phase.Finalizing? && s' == AfterUpdate(s, w, fault)
    ensures Inv(cfg, s')
  {
    if Accepts(s, w) && fault != Lost {
      FinalizedKeepsInv(cfg, s, w, s'.syncs[w].phase.ok);
    } else {
      FinishKeepsInv(cfg, s, w, s'.syncs[w].phase.ok);
    }
  }

  lemma OutsideKeepsInv(cfg: Config, s: State, l: Label, s': State)
    requires Disjoint(cfg) && Inv(cfg, s) && Next(cfg, s, l, s') && !Inside(l)
    ensures Inv(cfg, s')
  {
    match l
    case Created(key, copy) => WriteKeepsInv(cfg, s, key, copy);
    case Edited(key, finalizers) => EditIsAWrite(cfg, s, key, Current(s, key).(finalizers := finalizers));
    case DeleteRequested(key) => EditIsAWrite(cfg, s, key, Current(s, key).(deleting := true));
    case CacheAdvanced(key, rev) => CacheAdvancedKeepsInv(cfg, s, key, rev, s');
    case TargetChanged(t) => TargetChangedKeepsInv(cfg, s, t, s');
    case QueueMoved(ql) => QueueMovedKeepsInv(cfg, s, ql, s');
    case SyncStarted(w) => SyncStartedKeepsInv(cfg, s, w, s');
    case SyncEnded(w) => SyncEndedKeepsInv(cfg, s, w, s');
  }

  lemma EditIsAWrite(cfg: Config, s: State, key: string, copy: Copy)
    requires Inv(cfg, s) && Live(s, key) && copy.uid == Current(s, key).uid
    requires Current(s, key).deleting ==> copy.deleting && copy.finalizers <= Current(s, key).finalizers
    ensures Inv(cfg, Write(s, key, copy))
  {
    assert cfg.keyOf(Current(s, key).uid) == key;
    WriteKeepsInv(cfg, s, key, copy);
  }

  lemma StartedKeepsInv(cfg: Config, s: State, l: Label, s': State)
    requires Inv(cfg, s) && Next(cfg, s, l, s') && (l.SyncFailed? || l.NothingToDo? || l.PassStarted?)
    ensures Inv(cfg, s')
  {
    match l
    case SyncFailed(w) => FinishKeepsInv(cfg, s, w, false);
    case NothingToDo(w) => FinishKeepsInv(cfg, s, w, true);
    case PassStarted(w, todo) => PassStartedKeepsInv(cfg, s, w, todo, s');
  }

  lemma InsideKeepsInv(cfg: Config, s: State, l: Label, s': State)
    requires Disjoint(cfg) && Inv(cfg, s) && Next(cfg, s, l, s') && Inside(l)
    ensures Inv(cfg, s')
  {
    if l.Called? {
      CalledKeepsInv(cfg, s, l.w, l.known, l.fault, s');
    } else if l.PassEnded? {
      PassEndedKeepsInv(cfg, s, l.w, s');
    } else if l.UpdateSent? {
      UpdateSentKeepsInv(cfg, s, l.w, l.fault, s');
    } else {
      StartedKeepsInv(cfg, s, l, s');
    }
  }

  lemma NextKeepsInv(cfg: Config, s: State, l: Label, s': State)
    requires Disjoint(cfg) && Inv(cfg, s) && Next(cfg, s, l, s')
    ensures Inv(cfg, s')
  {
    if Inside(l) {
      InsideKeepsInv(cfg, s, l, s');
    } else {
      OutsideKeepsInv(cfg, s, l, s');
    }
  }

  lemma {:induction false} InvOfRun(cfg: Config, r: Run, i: nat)
    requires Disjoint(cfg) && RunOf(cfg, r) && i < |r.states|
    ensures Inv(cfg, r.states[i])
  {
    if i > 0 {
      InvOfRun(cfg, r, i - 1);
      NextKeepsInv(cfg, r.states[i - 1], r.labels[i - 1], r.states[i]);
    }
  }
}
