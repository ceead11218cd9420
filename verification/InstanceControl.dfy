/** The instance controller's methods as they run: objects sorted in place, calls against a
    client, and the finalizer taken from the cached instance itself. */
module InstanceControl {
  import opened Cluster
  import opened KindSorter
  import opened SortObjects
  import opened SortOrders
  import opened Reconciler
  import opened Passes
  import opened Convergence
  import opened ManifestSelection
  import opened Pinning
  import opened Rendering
  import Semver

  /** One entry of the accumulated error. */
  datatype Failure = NoConnection | ObjectFailed(o: Object, outcome: Outcome)

  function Failures(verb: Verb, os: seq<Object>, outcomes: seq<Outcome>): (r: seq<Failure>)
    requires |os| == |outcomes|
    ensures r == [] <==> forall i :: 0 <= i < |outcomes| ==> Fine(verb, outcomes[i])
    ensures forall i :: 0 <= i < |os| && !Fine(verb, outcomes[i]) ==> ObjectFailed(os[i], outcomes[i]) in r
  {
    if os == [] then []
    else
      var n := |os| - 1;
      var r := Failures(verb, os[..n], outcomes[..n]);
      assert forall i :: 0 <= i < n ==> outcomes[..n][i] == outcomes[i];
      if Fine(verb, outcomes[n]) then r else r + [ObjectFailed(os[n], outcomes[n])]
  }

  /** A dynamic client for one target. */
  class Client {
    var objects: Target

    /** Applies what the server does, or only part of it, as the fault says. */
    method Send(verb: Verb, env: Env, o: Object, fault: Fault) returns (answer: Answer)
      requires o.gvk in env.scopes
      modifies this
      ensures forall known :: Mapped(env, known, o) ==>
                Act(verb, env, known, old(objects), o, fault) == (objects, Answered(answer))
    {
      var (t, a) := if verb.Ensure? then CreateOn(objects, env, o) else DeleteOn(objects, env, o);
      if fault != Lost { objects := t; }
      answer := if fault == NoFault then a else Refused;
    }
  }

  /** The loop of a pass: an object that cannot be mapped or gets an error is noted, and the
      next one has its turn. Faults are listed in the order of the calls. */
  method SendAll(verb: Verb, client: Client, env: Env, known: set<Gvk>, objects: array<Object>, faults: seq<Fault>) returns (result: seq<Failure>)
    requires |faults| == objects.Length
    modifies client
    ensures var r := Pass(verb, env, known, old(client.objects), objects[..], faults);
            client.objects == r.target && result == Failures(verb, objects[..], r.outcomes)
  {
    ghost var was, os, outcomes := client.objects, objects[..], [];
    result := [];
    for i := 0 to objects.Length
      invariant Pass(verb, env, known, was, os[..i], faults[..i]) == Report(client.objects, outcomes)
      invariant result == Failures(verb, os[..i], outcomes)
    {
      PassExtends(verb, env, known, was, os, faults, i);
      var o, outcome := objects[i], Unmapped;
      if Mapped(env, known, o) {
        var answer := client.Send(verb, env, o, faults[i]);
        outcome := Answered(answer);
      }
      if !Fine(verb, outcome) { result := result + [ObjectFailed(o, outcome)]; }
      FailuresExtend(verb, os, outcomes, outcome, i);
      outcomes := outcomes + [outcome];
    }
    assert os[..objects.Length] == os && faults[..objects.Length] == faults;
  }

  /** `connection` is the outcome of building the target's client and discovering its kinds. */
  method EnsureAddonInstanceObjects(client: Client, env: Env, connection: Option<set<Gvk>>, objects: array<Object>, faults: seq<Fault>)
    returns (result: seq<Failure>)
    requires |faults| == objects.Length
    modifies client, objects
    ensures multiset(objects[..]) == old(multiset(objects[..]))
    ensures connection.None? ==> result == [NoConnection] && client.objects == old(client.objects)
    ensures connection.Some? ==>
              var r := Pass(Ensure, env, connection.value, old(client.objects), objects[..], faults);
              && client.objects == r.target && result == Failures(Ensure, objects[..], r.outcomes)
              && (StrictWeakOrder(OrderingOf(INSTALL_ORDER), old(Elements(objects[..]))) ==> Sorted(OrderingOf(INSTALL_ORDER), objects[..]))
    ensures connection.Some? && FaultFree(faults) ==>
              Converges(env, connection.value, old(client.objects), old(objects[..]), client.objects, result == [])
  {
    if connection.None? { return [NoConnection]; }
    ghost var was, unsorted := client.objects, objects[..];
    SortInPlace(objects, INSTALL_ORDER);
    if FaultFree(faults) {
      SortedPassConverges(env, connection.value, was, unsorted, objects[..], faults);
    }
    result := SendAll(Ensure, client, env, connection.value, objects, faults);
  }

  method DeleteAddonInstanceObjects(client: Client, env: Env, connection: Option<set<Gvk>>, objects: array<Object>, faults: seq<Fault>)
    returns (result: seq<Failure>)
    requires |faults| == objects.Length
    modifies client, objects
    ensures multiset(objects[..]) == old(multiset(objects[..]))
    ensures connection.None? ==> result == [NoConnection] && client.objects == old(client.objects)
    ensures connection.Some? ==>
              var r := Pass(Delete, env, connection.value, old(client.objects), objects[..], faults);
              && client.objects == r.target && result == Failures(Delete, objects[..], r.outcomes)
              && (StrictWeakOrder(OrderingOf(UNINSTALL_ORDER), old(Elements(objects[..]))) ==> Sorted(OrderingOf(UNINSTALL_ORDER), objects[..]))
  {
    if connection.None? { return [NoConnection]; }
    SortInPlace(objects, UNINSTALL_ORDER);
    result := SendAll(Delete, client, env, connection.value, objects, faults);
  }

  lemma PassExtends(verb: Verb, env: Env, known: set<Gvk>, t: Target, os: seq<Object>, faults: seq<Fault>, i: nat)
    requires |os| == |faults| && i < |os|
    ensures var r := Pass(verb, env, known, t, os[..i], faults[..i]);
            var (t', outcome) := Act(verb, env, known, r.target, os[i], faults[i]);
            Pass(verb, env, known, t, os[..i + 1], faults[..i + 1]) == Report(t', r.outcomes + [outcome])
  {
    assert os[..i + 1][..i] == os[..i] && faults[..i + 1][..i] == faults[..i];
  }

  lemma FailuresExtend(verb: Verb, os: seq<Object>, outcomes: seq<Outcome>, outcome: Outcome, i: nat)
    requires i < |os| && |outcomes| == i
    ensures Failures(verb, os[..i + 1], outcomes + [outcome])
         == Failures(verb, os[..i], outcomes) + if Fine(verb, outcome) then [] else [ObjectFailed(os[i], outcome)]
  {
    assert os[..i + 1][..i] == os[..i] && (outcomes + [outcome])[..i] == outcomes;
  }

  // ----- the instance and its finalizer

  /** The API server's AddonInstances, as a log of versions. */
  class Server {
    var log: seq<Event>
    var current: map<string, nat>

    /** The reply to Update(instance): NotFound, a conflict, or the new version. */
    method Update(key: string, rev: nat, copy: Copy, fault: Fault) returns (answer: Answer)
      modifies this
      ensures var accepted := key in old(current) && old(current[key]) == rev && fault != Lost;
              && log == (if accepted then old(log) + [Event(key, copy, Gone(copy))] else old(log))
              && current == (if accepted then Versions(old(current), key, copy, old(|log|)) else old(current))
      ensures answer == if fault != NoFault then Refused
                        else if key !in old(current) then NotFound
                        else if old(current[key]) == rev then Done else Refused
    {
      answer := if fault != NoFault then Refused else if key !in current then NotFound
                else if current[key] == rev then Done else Refused;
      if key in current && current[key] == rev && fault != Lost {
        current := Versions(current, key, copy, |log|);
        log := log + [Event(key, copy, Gone(copy))];
      }
    }
  }

  /** An AddonInstance as the cache hands it out: the very object, not a copy of it. */
  class Instance {
    const key: string
    const rev: nat
    const uid: nat
    const deleting: bool
    const manifest: ManifestRef
    var finalizers: seq<string>

    ghost function AsCopy(): Copy
      reads this
    {
      Copy(uid, deleting, FinalizerSet(finalizers))
    }
  }

  function FinalizerSet(finalizers: seq<string>): set<string> {
    set f | f in finalizers
  }

  lemma OneMore(finalizers: seq<string>, f: string)
    ensures FinalizerSet(finalizers + [f]) == FinalizerSet(finalizers) + {f}
  {
  }

  /** sets.String.UnsortedList: every element once, in some order. */
  method UnsortedList(s: set<string>) returns (list: seq<string>)
    ensures FinalizerSet(list) == s && |list| == |s|
  {
    list := [];
    var rest := s;
    while rest != {}
      invariant rest <= s && FinalizerSet(list) == s - rest && |list| + |rest| == |s|
      decreases |rest|
    {
      var f :| f in rest;
      OneMore(list, f);
      list, rest := list + [f], rest - {f};
    }
  }

  /** What a reconcile can change outside its own instance. */
  datatype World = World(target: Target, log: seq<Event>, current: map<string, nat>)

  datatype Effect = Effect(world: World, finalizers: set<string>, ok: bool)

  /** An Update of `copy` at version `rev`, and whether its answer counts as success. */
  function Updated(world: World, key: string, rev: nat, copy: Copy, fault: Fault): Effect {
    var isCurrent := key in world.current && world.current[key] == rev;
    var after := if isCurrent && fault != Lost
                 then world.(log := world.log + [Event(key, copy, Gone(copy))],
                             current := Versions(world.current, key, copy, |world.log|))
                 else world;
    Effect(after, copy.finalizers, fault == NoFault && (isCurrent || key !in world.current))
  }

  /** One reconcile of `copy`: the early returns, the pass, and the Update of the
      finalizer if a delete pass had no error. */
  ghost function Reconciled(world: World, key: string, rev: nat, copy: Copy, env: Env, rendered: bool,
                            connection: Option<set<Gvk>>, todo: seq<Object>, faults: seq<Fault>, fault: Fault): Effect
    requires |todo| == |faults|
  {
    if !rendered then Effect(world, copy.finalizers, false)
    else if copy.deleting && BOUQUET !in copy.finalizers then Effect(world, copy.finalizers, true)
    else if connection.None? then Effect(world, copy.finalizers, false)
    else
      var verb := if copy.deleting then Delete else Ensure;
      var r := Pass(verb, env, connection.value, world.target, todo, faults);
      var after := world.(target := r.target);
      if copy.deleting && ErrorFree(verb, r)
      then Updated(after, key, rev, copy.(finalizers := copy.finalizers - {BOUQUET}), fault)
      else Effect(after, copy.finalizers, ErrorFree(verb, r))
  }

  method RemoveInstanceFinalizer(instance: Instance, server: Server, ghost target: Target, fault: Fault) returns (ok: bool)
    modifies instance, server
    ensures |instance.finalizers| == |FinalizerSet(instance.finalizers)|
    ensures instance.AsCopy() == old(instance.AsCopy()).(finalizers := old(instance.AsCopy()).finalizers - {BOUQUET})
    ensures Effect(World(target, server.log, server.current), instance.AsCopy().finalizers, ok)
         == Updated(World(target, old(server.log), old(server.current)), instance.key, instance.rev, instance.AsCopy(), fault)
  {
    var finalizers := FinalizerSet(instance.finalizers) - {BOUQUET};
    instance.finalizers := UnsortedList(finalizers);
    var copy := Copy(instance.uid, instance.deleting, finalizers);
    var answer := server.Update(instance.key, instance.rev, copy, fault);
    ok := answer == Done || answer == NotFound;
  }

  /** What a manifest resolves to for the instance: named files, and the order Go visits
      them in. There is none if fetching or templating fails. */
  datatype Source = Source(files: map<string, seq<Document>>, order: seq<string>)

  /** `r` is what the source yields: nothing if there is none or a document is broken, else
      the object of every document of every file, in the order of the visits. */
  ghost predicate Applies(source: Option<Source>, r: Option<seq<Object>>)
    requires source.Some? ==> Visits(source.value.order, source.value.files)
  {
    if source.None? then r == None
    else
      && (r.Some? <==> forall k :: k in source.value.files ==> Broken !in source.value.files[k])
      && (r.Some? ==> Yields(Documents(source.value.order, source.value.files), r.value))
  }

  ghost predicate AllVisited(sources: Manifest -> Option<Source>) {
    forall m :: sources(m).Some? ==> Visits(sources(m).value.order, sources(m).value.files)
  }

  /** The reference selects no manifest, or `r` is what the selected one renders to. */
  ghost predicate Renders(lister: string -> Option<seq<Manifest>>, ref: ManifestRef, library: Semver.Version -> bool,
                          sources: Manifest -> Option<Source>, r: Option<seq<Object>>)
    requires AllVisited(sources)
  {
    var range, listing := ParseRange(ref.version), lister(ref.namespace);
    if range.Invalid? || listing.None? then r == None
    else if range.Exact? then
      || (r == None && NoneEqual(listing.value, ref.name, range.v))
      || (exists k: nat :: Resolves(listing.value, ref, k) && Applies(sources(listing.value[k]), r))
    else
      || (r == None && forall m :: m in listing.value ==> !Fits(m, ref.name, library))
      || (exists k: nat :: Selected(listing.value, ref.name, library, k) && Applies(sources(listing.value[k]), r))
  }

  /** A pin renders the manifest it was written for. */
  ghost predicate RendersPins(lister: string -> Option<seq<Manifest>>, ref: ManifestRef, sources: Manifest -> Option<Source>, r: Option<seq<Object>>)
    requires AllVisited(sources)
  {
    forall k: nat :: Pins(lister(ref.namespace), ref, k) ==> Applies(sources(lister(ref.namespace).value[k]), r)
  }

  method RenderManifest(lister: string -> Option<seq<Manifest>>, ref: ManifestRef, library: Semver.Version -> bool, sources: Manifest -> Option<Source>)
    returns (r: Option<seq<Object>>)
    requires AllVisited(sources)
    ensures Renders(lister, ref, library, sources, r)
    ensures RendersPins(lister, ref, sources, r)
  {
    var manifest := FindManifestByRef(lister, ref, library);
    if manifest.None? { return None; }
    var source := sources(manifest.value);
    if source.None? { return None; }
    r := ParseMappedFileContents(source.value.order, source.value.files);
  }

  // ----- what one reconcile promises

  /** `todo` is what was rendered, as SortObjects leaves it in the order of the verb. */
  ghost predicate InOrder(deleting: bool, rendered: seq<Object>, todo: seq<Object>) {
    var ordering := OrderingOf(if deleting then UNINSTALL_ORDER else INSTALL_ORDER);
    multiset(todo) == multiset(rendered) && (StrictWeakOrder(ordering, Elements(rendered)) ==> Sorted(ordering, todo))
  }

  /** The server's history moves only if the finalizer of a deleted instance goes, alone, and
      then nothing of what was rendered is left in the target. */
  ghost predicate CleansUp(env: Env, rendered: seq<Object>, key: string, rev: nat, copy: Copy, before: World, after: World) {
    if after.log == before.log then after.current == before.current
    else
      var rest := copy.finalizers - {"bouquet"};
      && copy.deleting && "bouquet" in copy.finalizers && key in before.current && before.current[key] == rev
      && after.log == before.log + [Event(key, copy.(finalizers := rest), rest == {})]
      && after.current == (if rest == {} then before.current - {key} else before.current[key := |before.log|])
      && forall o :: o in rendered ==> o.gvk in env.scopes && IdOf(env, o) !in after.target
  }

  /** Without faults a deleted instance that has the finalizer and only mapped objects loses
      it, unless the server holds another version. */
  ghost predicate FinishesCleanup(known: set<Gvk>, env: Env, rendered: seq<Object>, key: string, rev: nat, copy: Copy,
                                  before: World, after: World, ok: bool) {
    copy.deleting && "bouquet" in copy.finalizers && (forall o :: o in rendered ==> Mapped(env, known, o)) ==>
      if key in before.current && before.current[key] == rev then ok && after.log != before.log
      else after.log == before.log && (ok <==> key !in before.current)
  }

  lemma ReconciledCleansUp(world: World, key: string, rev: nat, copy: Copy, env: Env, connection: Option<set<Gvk>>,
                           rendered: seq<Object>, todo: seq<Object>, faults: seq<Fault>, fault: Fault)
    requires |todo| == |faults| && multiset(todo) == multiset(rendered)
    ensures CleansUp(env, rendered, key, rev, copy, world,
                     Reconciled(world, key, rev, copy, env, true, connection, todo, faults, fault).world)
  {
    if connection.Some? && copy.deleting && BOUQUET in copy.finalizers {
      var r := Pass(Delete, env, connection.value, world.target, todo, faults);
      if ErrorFree(Delete, r) {
        SameElements(todo, rendered);
        SameMembers(todo, rendered);
        ErrorFreeDeleteClears(env, connection.value, world.target, todo, faults);
      }
    }
  }

  lemma ErrorFreeDeleteClears(env: Env, known: set<Gvk>, t: Target, os: seq<Object>, faults: seq<Fault>)
    requires |os| == |faults| && ErrorFree(Delete, Pass(Delete, env, known, t, os, faults))
    ensures forall o :: o in os ==> o.gvk in env.scopes && IdOf(env, o) !in Pass(Delete, env, known, t, os, faults).target
  {
    DeleteRemovesExactly(env, known, t, os, faults);
    forall o | o in os
      ensures o.gvk in env.scopes && Struck(env, known, os, faults, IdOf(env, o))
    {
      var i :| 0 <= i < |os| && os[i] == o;
      assert Mapped(env, known, os[i]) && faults[i] == NoFault && Covers(env, os[i], IdOf(env, o));
    }
  }

  lemma ReconciledFinishes(world: World, key: string, rev: nat, copy: Copy, env: Env, known: set<Gvk>,
                           rendered: seq<Object>, todo: seq<Object>, faults: seq<Fault>)
    requires |todo| == |faults| && multiset(todo) == multiset(rendered) && FaultFree(faults)
    ensures var effect := Reconciled(world, key, rev, copy, env, true, Some(known), todo, faults, NoFault);
            FinishesCleanup(known, env, rendered, key, rev, copy, world, effect.world, effect.ok)
  {
    if copy.deleting && BOUQUET in copy.finalizers && forall o :: o in rendered ==> Mapped(env, known, o) {
      SameElements(todo, rendered);
      SameMembers(todo, rendered);
      DeleteRemovesExactly(env, known, world.target, todo, faults);
    }
  }

  /** `reconcile` on the cached instance once it is rendered. */
  method ReconcileRendered(instance: Instance, server: Server, client: Client, env: Env, connection: Option<set<Gvk>>,
                           objects: array<Object>, faults: seq<Fault>, fault: Fault) returns (ok: bool)
    requires |faults| == objects.Length
    modifies instance, server, client, objects
    ensures multiset(objects[..]) == old(multiset(objects[..]))
    ensures connection.Some? && (instance.deleting ==> BOUQUET in old(instance.finalizers)) ==>
              InOrder(instance.deleting, old(objects[..]), objects[..])
    ensures Effect(World(client.objects, server.log, server.current), instance.AsCopy().finalizers, ok)
         == Reconciled(World(old(client.objects), old(server.log), old(server.current)), instance.key, instance.rev,
                       old(instance.AsCopy()), env, true, connection, objects[..], faults, fault)
    ensures !instance.deleting && connection.Some? && FaultFree(faults) ==>
              Converges(env, connection.value, old(client.objects), old(objects[..]), client.objects, ok)
  {
    if instance.deleting {
      ok := BOUQUET !in FinalizerSet(instance.finalizers);
      if !ok {
        var failures := DeleteAddonInstanceObjects(client, env, connection, objects, faults);
        if failures == [] {
          ok := RemoveInstanceFinalizer(instance, server, client.objects, fault);
        }
      }
    } else {
      var failures := EnsureAddonInstanceObjects(client, env, connection, objects, faults);
      ok := failures == [];
    }
  }

  /** All that a reconcile promises about the objects it rendered, as `effect` on `before`. */
  ghost predicate Fulfils(env: Env, connection: Option<set<Gvk>>, rendered: seq<Object>, todo: seq<Object>, key: string, rev: nat, copy: Copy,
                          faults: seq<Fault>, fault: Fault, before: World, effect: Effect) {
    && multiset(todo) == multiset(rendered) && |todo| == |faults|
    && (connection.Some? && (copy.deleting ==> BOUQUET in copy.finalizers) ==> InOrder(copy.deleting, rendered, todo))
    && effect == Reconciled(before, key, rev, copy, env, true, connection, todo, faults, fault)
    && (!copy.deleting && connection.Some? && FaultFree(faults) ==>
          Converges(env, connection.value, before.target, rendered, effect.world.target, effect.ok))
    && CleansUp(env, rendered, key, rev, copy, before, effect.world)
    && (connection.Some? && FaultFree(faults) && fault == NoFault ==>
          FinishesCleanup(connection.value, env, rendered, key, rev, copy, before, effect.world, effect.ok))
  }

  /** The faults of `n` calls. */
  function FirstFaults(faults: nat -> Fault, n: nat): seq<Fault> {
    seq(n, i requires 0 <= i < n => faults(i))
  }

  /** The rendered objects become a slice of their own. */
  method ReconcileObjects(instance: Instance, server: Server, client: Client, env: Env, connection: Option<set<Gvk>>,
                          rendered: seq<Object>, faults: seq<Fault>, fault: Fault) returns (ok: bool, ghost todo: seq<Object>)
    requires |faults| == |rendered|
    modifies instance, server, client
    ensures Fulfils(env, connection, rendered, todo, instance.key, instance.rev, old(instance.AsCopy()), faults, fault,
                    World(old(client.objects), old(server.log), old(server.current)),
                    Effect(World(client.objects, server.log, server.current), instance.AsCopy().finalizers, ok))
  {
    ghost var before, copy := World(client.objects, server.log, server.current), instance.AsCopy();
    var objects := new Object[|rendered|](i requires 0 <= i < |rendered| => rendered[i]);
    assert objects[..] == rendered;
    ok := ReconcileRendered(instance, server, client, env, connection, objects, faults, fault);
    todo := objects[..];
    ReconciledCleansUp(before, instance.key, instance.rev, copy, env, connection, rendered, todo, faults, fault);
    if connection.Some? && FaultFree(faults) && fault == NoFault {
      ReconciledFinishes(before, instance.key, instance.rev, copy, env, connection.value, rendered, todo, faults);
    }
  }

  /** `reconcile`: the manifest is found and rendered, and then acted on; without it nothing
      happens and there is an error. */
  method Reconcile(instance: Instance, server: Server, client: Client, env: Env, lister: string -> Option<seq<Manifest>>,
                   library: Semver.Version -> bool, sources: Manifest -> Option<Source>, connection: Option<set<Gvk>>,
                   faults: nat -> Fault, fault: Fault)
    returns (ok: bool, ghost rendered: Option<seq<Object>>, ghost todo: seq<Object>)
    requires AllVisited(sources)
    modifies instance, server, client
    ensures Renders(lister, instance.manifest, library, sources, rendered)
    ensures RendersPins(lister, instance.manifest, sources, rendered)
    ensures var before := World(old(client.objects), old(server.log), old(server.current));
            var effect := Effect(World(client.objects, server.log, server.current), instance.AsCopy().finalizers, ok);
            if rendered.None? then effect == Effect(before, old(instance.AsCopy()).finalizers, false)
            else Fulfils(env, connection, rendered.value, todo, instance.key, instance.rev, old(instance.AsCopy()),
                         FirstFaults(faults, |rendered.value|), fault, before, effect)
  {
    var result := RenderManifest(lister, instance.manifest, library, sources);
    rendered, todo := result, [];
    ok := false;
    if result.Some? {
      ok, todo := ReconcileObjects(instance, server, client, env, connection, result.value, FirstFaults(faults, |result.value|), fault);
    }
  }
}
