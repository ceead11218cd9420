/** The instance controller as a step system: the server's history of AddonInstances, the
    informer cache, the target clusters and the workers, interleaved call by call. */
module Reconciler {
  import opened Cluster
  import Q = WorkQueue

  const BOUQUET := "bouquet"

  /** One version of an AddonInstance; `uid` tells incarnations of a key apart. */
  datatype Copy = Copy(uid: nat, deleting: bool, finalizers: set<string>)

  /** A write on the server. Its position in the log is its resource version, and `gone`
      marks a write that removed the object. */
  datatype Event = Event(key: string, copy: Copy, gone: bool)

  /** What the cache holds for a key: the version it has reached, and the object if that
      version is not a removal. */
  datatype Entry = Entry(rev: nat, copy: Option<Copy>)

  /** How far a call of `reconcile` got. `Finalizing` is after the write to
      `instance.Finalizers` and before the answer to Update. */
  datatype Phase =
    | Start
    | Ensuring(todo: seq<Object>, failed: bool)
    | Deleting(todo: seq<Object>, failed: bool)
    | Finalizing
    | Finished(ok: bool)

  /** A worker inside `reconcile`. `copy` is the cached object itself for as long as the
      cache stays at version `rev`. */
  datatype Sync = Sync(key: string, rev: nat, copy: Copy, phase: Phase)

  /** Each incarnation has its key, its target and what it renders to, all fixed. */
  datatype Config = Config(workers: nat, keyOf: nat -> string, env: nat -> Env, objects: nat -> seq<Object>)

  /** `current` is the version of every live object. `finalized` records, for the proof,
      at which version a worker took an incarnation's finalizer away. */
  datatype State = State(log: seq<Event>, current: map<string, nat>, cache: map<string, Entry>, target: Target,
                         queue: Q.State, syncs: map<nat, Sync>, finalized: map<nat, nat>)

  datatype Label =
    | Created(key: string, copy: Copy)
    | Edited(key: string, finalizers: set<string>)
    | DeleteRequested(key: string)
    | CacheAdvanced(key: string, rev: nat)
    | TargetChanged(target: Target)
    | QueueMoved(l: Q.Label)
    | SyncStarted(w: nat)
    | SyncFailed(w: nat)
    | NothingToDo(w: nat)
    | PassStarted(w: nat, todo: seq<Object>)
    | Called(w: nat, known: set<Gvk>, fault: Fault)
    | PassEnded(w: nat)
    | UpdateSent(w: nat, fault: Fault)
    | SyncEnded(w: nat)

  /** Object `o` of incarnation `u` lives at `id`. */
  ghost predicate Owns(cfg: Config, u: nat, id: Id) {
    exists o :: o in cfg.objects(u) && o.gvk in cfg.env(u).scopes && IdOf(cfg.env(u), o) == id
  }

  /** Instances under different keys render to different identities. */
  ghost predicate Disjoint(cfg: Config) {
    forall u, v, id :: Owns(cfg, u, id) && Owns(cfg, v, id) ==> cfg.keyOf(u) == cfg.keyOf(v)
  }

  ghost predicate Init(cfg: Config, s: State) {
    && s.log == [] && s.current == map[] && s.cache == map[]
    && s.queue == Q.Init(cfg.workers) && s.syncs == map[] && s.finalized == map[]
  }

  /** Being deleted with no finalizer left: the server removes the object. */
  predicate Gone(copy: Copy) {
    copy.deleting && copy.finalizers == {}
  }

  function Versions(current: map<string, nat>, key: string, copy: Copy, rev: nat): map<string, nat> {
    if Gone(copy) then current - {key} else current[key := rev]
  }

  /** The server stores a version of an object, or removes it. */
  function Write(s: State, key: string, copy: Copy): State {
    s.(log := s.log + [Event(key, copy, Gone(copy))], current := Versions(s.current, key, copy, |s.log|))
  }

  predicate Live(s: State, key: string) {
    key in s.current && s.current[key] < |s.log|
  }

  function Current(s: State, key: string): Copy
    requires Live(s, key)
  {
    s.log[s.current[key]].copy
  }

  function Advance(s: State, w: nat, phase: Phase): State
    requires w in s.syncs
  {
    s.(syncs := s.syncs[w := s.syncs[w].(phase := phase)])
  }

  /** The in-place write of removeInstanceFinalizer reaches the cache as long as the cache
      still holds the object the worker was given. */
  function TakeFinalizer(s: State, w: nat): State
    requires w in s.syncs
  {
    var y := s.syncs[w];
    var copy := y.copy.(finalizers := y.copy.finalizers - {BOUQUET});
    s.(syncs := s.syncs[w := y.(copy := copy, phase := Finalizing)],
       cache := if y.key in s.cache && s.cache[y.key].rev == y.rev
                then s.cache[y.key := Entry(y.rev, Some(copy))] else s.cache)
  }

  /** The server accepts the worker's Update: its resource version is the current one. */
  predicate Accepts(s: State, w: nat) {
    w in s.syncs && Live(s, s.syncs[w].key) && s.current[s.syncs[w].key] == s.syncs[w].rev
  }

  /** The reply to Update: NotFound counts as success, a conflict does not. */
  function AfterUpdate(s: State, w: nat, fault: Fault): State
    requires w in s.syncs
  {
    var y := s.syncs[w];
    var ok := fault == NoFault && (Accepts(s, w) || y.key !in s.current);
    var s' := if Accepts(s, w) && fault != Lost
              then Write(s, y.key, y.copy).(finalized := s.finalized[y.copy.uid := |s.log|]) else s;
    Advance(s', w, Finished(ok))
  }

  // ----- users and the API server

  ghost predicate Create(cfg: Config, s: State, key: string, copy: Copy, s': State) {
    && key !in s.current && !copy.deleting && cfg.keyOf(copy.uid) == key
    && (forall i :: 0 <= i < |s.log| ==> s.log[i].copy.uid != copy.uid)
    && s' == Write(s, key, copy)
  }

  /** No finalizer can be added to an object being deleted. */
  predicate Edit(s: State, key: string, finalizers: set<string>, s': State) {
    && Live(s, key) && (Current(s, key).deleting ==> finalizers <= Current(s, key).finalizers)
    && s' == Write(s, key, Current(s, key).(finalizers := finalizers))
  }

  predicate RequestDelete(s: State, key: string, s': State) {
    Live(s, key) && s' == Write(s, key, Current(s, key).(deleting := true))
  }

  /** The cache moves to any later version of the key. */
  predicate AdvanceCache(s: State, key: string, rev: nat, s': State) {
    && rev < |s.log| && s.log[rev].key == key && (key in s.cache ==> s.cache[key].rev < rev)
    && s' == s.(cache := s.cache[key := Entry(rev, if s.log[rev].gone then None else Some(s.log[rev].copy))])
  }

  /** Anyone may remove anything from a target, but nobody else creates what is rendered. */
  ghost predicate ChangeTarget(cfg: Config, s: State, target: Target, s': State) {
    && (forall id :: id in target && id !in s.target ==> forall u :: !Owns(cfg, u, id))
    && s' == s.(target := target)
  }

  predicate MoveQueue(s: State, l: Q.Label, s': State) {
    && !l.Taken? && ((l.Forgotten? || l.Errored?) ==> l.w !in s.syncs)
    && Q.Next(s.queue, l, s'.queue) && s' == s.(queue := s'.queue)
  }

  // ----- the workers

  /** What syncHandler starts with: the lister has the object, or there is nothing to do. */
  function Joined(s: State, w: nat, item: Q.Item): map<nat, Sync> {
    if item.Key? && item.key in s.cache && s.cache[item.key].copy.Some?
    then s.syncs[w := Sync(item.key, s.cache[item.key].rev, s.cache[item.key].copy.value, Start)]
    else s.syncs
  }

  predicate StartSync(s: State, w: nat, s': State) {
    && w !in s.syncs && Q.Next(s.queue, Q.Taken(w), s'.queue)
    && s' == s.(queue := s'.queue, syncs := Joined(s, w, s.queue.q.waiting[0]))
  }

  /** A deleted instance without the finalizer is left alone. */
  predicate SkipSync(s: State, w: nat, s': State) {
    && w in s.syncs && s.syncs[w].phase.Start?
    && s.syncs[w].copy.deleting && BOUQUET !in s.syncs[w].copy.finalizers
    && s' == Advance(s, w, Finished(true))
  }

  /** SortObjects leaves the rendered objects in some order. */
  ghost predicate StartPass(cfg: Config, s: State, w: nat, todo: seq<Object>, s': State) {
    && w in s.syncs && s.syncs[w].phase.Start?
    && multiset(todo) == multiset(cfg.objects(s.syncs[w].copy.uid))
    && (s.syncs[w].copy.deleting ==> BOUQUET in s.syncs[w].copy.finalizers)
    && s' == Advance(s, w, if s.syncs[w].copy.deleting then Deleting(todo, false) else Ensuring(todo, false))
  }

  predicate Passing(phase: Phase) {
    phase.Ensuring? || phase.Deleting?
  }

  function VerbOf(phase: Phase): Verb {
    if phase.Ensuring? then Ensure else Delete
  }

  /** The pass once its first object got its answer. */
  function AfterCall(phase: Phase, outcome: Outcome): Phase
    requires Passing(phase) && phase.todo != []
  {
    phase.(todo := phase.todo[1..], failed := phase.failed || !Fine(VerbOf(phase), outcome))
  }

  predicate Call(cfg: Config, s: State, w: nat, known: set<Gvk>, fault: Fault, s': State) {
    && w in s.syncs && Passing(s.syncs[w].phase) && s.syncs[w].phase.todo != []
    && var y := s.syncs[w];
    && var (t, outcome) := Act(VerbOf(y.phase), cfg.env(y.copy.uid), known, s.target, y.phase.todo[0], fault);
    && s' == Advance(s, w, AfterCall(y.phase, outcome)).(target := t)
  }

  predicate EndPass(s: State, w: nat, s': State) {
    && w in s.syncs && Passing(s.syncs[w].phase) && s.syncs[w].phase.todo == []
    && var phase := s.syncs[w].phase;
    && s' == if phase.Deleting? && !phase.failed then TakeFinalizer(s, w) else Advance(s, w, Finished(!phase.failed))
  }

  predicate EndSync(s: State, w: nat, s': State) {
    && w in s.syncs && s.syncs[w].phase.Finished?
    && Q.Next(s.queue, if s.syncs[w].phase.ok then Q.Forgotten(w) else Q.Errored(w), s'.queue)
    && s' == s.(queue := s'.queue, syncs := s.syncs - {w})
  }

  ghost predicate Next(cfg: Config, s: State, l: Label, s': State) {
    match l
    case Created(key, copy) => Create(cfg, s, key, copy, s')
    case Edited(key, finalizers) => Edit(s, key, finalizers, s')
    case DeleteRequested(key) => RequestDelete(s, key, s')
    case CacheAdvanced(key, rev) => AdvanceCache(s, key, rev, s')
    case TargetChanged(target) => ChangeTarget(cfg, s, target, s')
    case QueueMoved(l) => MoveQueue(s, l, s')
    case SyncStarted(w) => StartSync(s, w, s')
    // The manifest, its rendering or the target is not available.
    case SyncFailed(w) => w in s.syncs && s.syncs[w].phase.Start? && s' == Advance(s, w, Finished(false))
    case NothingToDo(w) => SkipSync(s, w, s')
    case PassStarted(w, todo) => StartPass(cfg, s, w, todo, s')
    case Called(w, known, fault) => Call(cfg, s, w, known, fault, s')
    case PassEnded(w) => EndPass(s, w, s')
    case UpdateSent(w, fault) => w in s.syncs && s.syncs[w].phase.Finalizing? && s' == AfterUpdate(s, w, fault)
    case SyncEnded(w) => EndSync(s, w, s')
  }

  datatype Run = Run(states: seq<State>, labels: seq<Label>)

  ghost predicate RunOf(cfg: Config, r: Run) {
    && |r.states| == |r.labels| + 1 && Init(cfg, r.states[0])
    && forall i :: 0 <= i < |r.labels| ==> Next(cfg, r.states[i], r.labels[i], r.states[i + 1])
  }

  /** The step is a worker's Update that takes the finalizer of incarnation `u`. */
  predicate Finalizes(s: State, l: Label, u: nat) {
    l.UpdateSent? && l.w in s.syncs && s.syncs[l.w].copy.uid == u && Accepts(s, l.w) && l.fault != Lost
  }

  /** The step is a worker's call against the target on behalf of incarnation `u`. */
  predicate Calls(s: State, l: Label, u: nat) {
    l.Called? && l.w in s.syncs && s.syncs[l.w].copy.uid == u
  }

  /** The step is the start of a pass on behalf of incarnation `u`. */
  predicate Starts(s: State, l: Label, u: nat) {
    l.PassStarted? && l.w in s.syncs && s.syncs[l.w].copy.uid == u
  }
}
