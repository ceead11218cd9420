/** When ensure passes get everything installed. */
module Convergence {
  import opened Cluster
  import opened KindSorter
  import opened SortObjects
  import opened SortOrders
  import opened Passes

  /** The object can be created as the target stands. */
  predicate Ready(env: Env, t: Target, o: Object) {
    Mapped(env, Discover(env, t), o) && o.name != "" && HasNamespace(env, t, o)
  }

  predicate Defines(o: Object, gvk: Gvk) {
    && o.gvk.group == "apiextensions.k8s.io" && o.gvk.kind == "CustomResourceDefinition"
    && o.body.Crd? && gvk in o.body.serves
  }

  /** A kind is discovered exactly if it is built in, or a custom resource definition in the
      target's own cluster serves it. */
  lemma DiscoveredIff(env: Env, t: Target, gvk: Gvk)
    ensures gvk in Discover(env, t) <==>
            || gvk in env.builtin
            || exists id :: id in t && id.cluster == env.cluster && Defines(t[id], gvk)
  {
    forall id | id in t && id.cluster == env.cluster
      ensures gvk in Serves(t[id]) <==> Defines(t[id], gvk)
    {
    }
    if id :| id in t && id.cluster == env.cluster && Defines(t[id], gvk) {
      assert gvk in Serves(t[id]);
    }
  }

  lemma DiscoveryGrows(env: Env, t: Target, t': Target)
    requires forall id :: id in t ==> id in t' && t'[id] == t[id]
    ensures Discover(env, t) <= Discover(env, t')
  {
  }

  /** A ready object is there after a fault-free pass, wherever it stands in the list. */
  lemma ReadyGetsInstalled(env: Env, t: Target, os: seq<Object>, faults: seq<Fault>, o: Object)
    requires |os| == |faults| && FaultFree(faults) && o in os && Ready(env, t, o)
    ensures IdOf(env, o) in Pass(Ensure, env, Discover(env, t), t, os, faults).target
  {
    var known := Discover(env, t);
    var i :| 0 <= i < |os| && os[i] == o;
    EnsureOnlyAdds(env, known, t, os[..i], faults[..i]);
    EveryObjectIsAttempted(Ensure, env, known, t, os, faults, i);
    EnsureOnlyGrows(env, known, t, os, faults, i + 1);
  }

  /** The namespace is there, or comes from a rendered object that is ready. */
  ghost predicate NamespaceProvided(env: Env, t: Target, os: seq<Object>, o: Object)
    requires o.gvk in env.scopes
  {
    HasNamespace(env, t, o) ||
    exists n :: n in os && Ready(env, t, n) && IdOf(env, n) == NamespaceId(env, IdOf(env, o).namespace)
  }

  /** Identity `id` is free, some ready object takes it, and whichever of the objects with
      that identity takes it serves the kind. */
  ghost predicate WillServe(env: Env, t: Target, os: seq<Object>, gvk: Gvk, id: Id) {
    && id.cluster == env.cluster && id !in t
    && (exists c :: c in os && Ready(env, t, c) && IdOf(env, c) == id)
    && (forall c :: c in os && c.gvk in env.scopes && IdOf(env, c) == id ==> gvk in Serves(c))
  }

  /** The kind is known already, or a rendered definition will make it so. */
  ghost predicate KindProvided(env: Env, t: Target, os: seq<Object>, gvk: Gvk) {
    gvk in Discover(env, t) || exists id :: WillServe(env, t, os, gvk, id)
  }

  ghost predicate Provided(env: Env, t: Target, os: seq<Object>, o: Object) {
    o.name != "" && o.gvk in env.scopes && NamespaceProvided(env, t, os, o) && KindProvided(env, t, os, o.gvk)
  }

  lemma ProvidedBecomesReady(env: Env, t: Target, os: seq<Object>, faults: seq<Fault>, o: Object)
    requires |os| == |faults| && FaultFree(faults) && Provided(env, t, os, o)
    ensures Ready(env, Pass(Ensure, env, Discover(env, t), t, os, faults).target, o)
  {
    NamespaceBecomesThere(env, t, os, faults, o);
    KindBecomesKnown(env, t, os, faults, o.gvk);
  }

  lemma NamespaceBecomesThere(env: Env, t: Target, os: seq<Object>, faults: seq<Fault>, o: Object)
    requires |os| == |faults| && FaultFree(faults) && o.gvk in env.scopes && NamespaceProvided(env, t, os, o)
    ensures HasNamespace(env, Pass(Ensure, env, Discover(env, t), t, os, faults).target, o)
  {
    EnsureOnlyAdds(env, Discover(env, t), t, os, faults);
    if !HasNamespace(env, t, o) {
      var n :| n in os && Ready(env, t, n) && IdOf(env, n) == NamespaceId(env, IdOf(env, o).namespace);
      ReadyGetsInstalled(env, t, os, faults, n);
    }
  }

  lemma KindBecomesKnown(env: Env, t: Target, os: seq<Object>, faults: seq<Fault>, gvk: Gvk)
    requires |os| == |faults| && FaultFree(faults) && KindProvided(env, t, os, gvk)
    ensures gvk in Discover(env, Pass(Ensure, env, Discover(env, t), t, os, faults).target)
  {
    var known := Discover(env, t);
    var t' := Pass(Ensure, env, known, t, os, faults).target;
    EnsureOnlyAdds(env, known, t, os, faults);
    DiscoveryGrows(env, t, t');
    if gvk !in known {
      var id :| WillServe(env, t, os, gvk, id);
      var c :| c in os && Ready(env, t, c) && IdOf(env, c) == id;
      ReadyGetsInstalled(env, t, os, faults, c);
      assert Rendered(env, known, os, id, t'[id]);
      assert gvk in Serves(t'[id]);
    }
  }

  /** A fault-free pass over ready objects, with what the target serves, reports no error. */
  lemma ReadyPassSucceeds(env: Env, t: Target, os: seq<Object>, faults: seq<Fault>)
    requires |os| == |faults| && FaultFree(faults) && forall o :: o in os ==> Ready(env, t, o)
    ensures ErrorFree(Ensure, Pass(Ensure, env, Discover(env, t), t, os, faults))
    ensures AllThere(env, Pass(Ensure, env, Discover(env, t), t, os, faults).target, os)
  {
    var known := Discover(env, t);
    forall i | 0 <= i < |os|
      ensures Creatable(env, known, t, os, faults, i)
    {
      assert os[i] in os;
      EnsureOnlyAdds(env, known, t, os[..i], faults[..i]);
    }
    EnsureReturnsNilIff(env, known, t, os, faults);
    SuccessMeansAllThere(env, known, t, os, faults);
  }

  /** Two-pass convergence: if every namespace and kind is there or rendered, then after two
      fault-free passes, over the objects in any two orders, the second reports no error and
      every object is there. */
  lemma TwoPassesSuffice(env: Env, t: Target, os: seq<Object>, faults: seq<Fault>, os': seq<Object>, faults': seq<Fault>)
    requires |os| == |faults| && FaultFree(faults) && |os'| == |faults'| && FaultFree(faults')
    requires forall o :: o in os <==> o in os'
    requires forall o :: o in os ==> Provided(env, t, os, o)
    ensures var mid := Pass(Ensure, env, Discover(env, t), t, os, faults).target;
            var r := Pass(Ensure, env, Discover(env, mid), mid, os', faults');
            ErrorFree(Ensure, r) && forall o :: o in os ==> o.gvk in env.scopes && IdOf(env, o) in r.target
  {
    var mid := Pass(Ensure, env, Discover(env, t), t, os, faults).target;
    forall o | o in os'
      ensures Ready(env, mid, o)
    {
      ProvidedBecomesReady(env, t, os, faults, o);
    }
    ReadyPassSucceeds(env, mid, os', faults');
  }

  /** One pass is not enough in general: while a kind waits for its definition to be
      discovered, a pass that has an object of it fails in every order. */
  lemma FirstPassMissesNewKinds(env: Env, t: Target, os: seq<Object>, faults: seq<Fault>, o: Object)
    requires |os| == |faults| && o in os && o.gvk !in Discover(env, t)
    ensures !ErrorFree(Ensure, Pass(Ensure, env, Discover(env, t), t, os, faults))
  {
    var i :| 0 <= i < |os| && os[i] == o;
    FineIff(env, Discover(env, t), t, os, faults, i);
  }

  /** The namespace of `o` is rendered too. */
  ghost predicate NamespaceRendered(env: Env, os: seq<Object>, o: Object)
    requires o.gvk in env.scopes
  {
    exists n :: n in os && n.gvk in env.scopes && IdOf(env, n) == NamespaceId(env, IdOf(env, o).namespace)
  }

  /** A named object of a listed and mapped kind whose namespace, if it needs one, is there
      or rendered. Only cluster-scoped objects are of kind Namespace. */
  ghost predicate Installable(env: Env, known: set<Gvk>, t: Target, os: seq<Object>, o: Object) {
    && Mapped(env, known, o) && o.name != "" && o.gvk.kind in INSTALL_ORDER
    && (o.gvk.kind == "Namespace" ==> env.scopes[o.gvk].ClusterScoped?)
    && (HasNamespace(env, t, o) || NamespaceRendered(env, os, o))
  }

  /** The namespace of object `i` stands earlier in the sorted list, so it is there in time. */
  lemma NamespaceComesFirst(env: Env, known: set<Gvk>, t: Target, os: seq<Object>, faults: seq<Fault>, i: nat, j: nat)
    requires |os| == |faults| && FaultFree(faults) && i < |os| && j < |os| && KindBefore(os, "Namespace", os[i].gvk.kind)
    requires Mapped(env, known, os[j]) && os[j].name != "" && os[j].gvk.kind == "Namespace" && env.scopes[os[j].gvk].ClusterScoped?
    ensures IdOf(env, os[j]) in Pass(Ensure, env, known, t, os[..i], faults[..i]).target
  {
    assert j < i;
    EveryObjectIsAttempted(Ensure, env, known, t, os, faults, j);
    EnsureOnlyGrows(env, known, t, os[..i], faults[..i], j + 1);
    assert os[..i][..j + 1] == os[..j + 1] && faults[..i][..j + 1] == faults[..j + 1];
  }

  lemma InTimeWhenSorted(env: Env, known: set<Gvk>, t: Target, os: seq<Object>, faults: seq<Fault>, i: nat)
    requires |os| == |faults| && FaultFree(faults) && Sorted(OrderingOf(INSTALL_ORDER), os) && i < |os|
    requires forall o :: o in os ==> Installable(env, known, t, os, o)
    ensures Installable(env, known, t, os, os[i]) && NamespaceInTime(env, known, t, os, faults, i)
  {
    var o := os[i];
    assert o in os;
    EnsureOnlyAdds(env, known, t, os[..i], faults[..i]);
    if !HasNamespace(env, t, o) {
      var n :| n in os && n.gvk in env.scopes && IdOf(env, n) == NamespaceId(env, IdOf(env, o).namespace);
      var j :| 0 <= j < |os| && os[j] == n;
      NamespaceRanksFirst(o.gvk.kind);
      RankOrders(OrderingOf(INSTALL_ORDER), os, "Namespace", o.gvk.kind);
      NamespaceComesFirst(env, known, t, os, faults, i, j);
    }
  }

  /** Install order makes one pass enough: a fault-free pass over the sorted list of
      installable objects reports no error and leaves every object there. */
  lemma InstallOrderSuffices(env: Env, known: set<Gvk>, t: Target, os: seq<Object>, faults: seq<Fault>)
    requires |os| == |faults| && FaultFree(faults) && Sorted(OrderingOf(INSTALL_ORDER), os)
    requires forall o :: o in os ==> Installable(env, known, t, os, o)
    ensures var r := Pass(Ensure, env, known, t, os, faults);
            ErrorFree(Ensure, r) && forall o :: o in os ==> o.gvk in env.scopes && IdOf(env, o) in r.target
  {
    forall i | 0 <= i < |os|
      ensures Creatable(env, known, t, os, faults, i)
    {
      InTimeWhenSorted(env, known, t, os, faults, i);
    }
    EnsureReturnsNilIff(env, known, t, os, faults);
    SuccessMeansAllThere(env, known, t, os, faults);
  }

  // ----- the same after any sort of the objects

  /** What a fault-free ensure pass promises about the objects `was` it was given, in any
      order: installable ones need one pass; provided ones are ready after it; and ready ones
      are all there after it. `ok` is whether it reports no error. */
  ghost predicate Converges(env: Env, known: set<Gvk>, t: Target, was: seq<Object>, t': Target, ok: bool) {
    && ((forall o :: o in was ==> Installable(env, known, t, was, o)) ==> ok && AllThere(env, t', was))
    && (known == Discover(env, t) && (forall o :: o in was ==> Provided(env, t, was, o)) ==> forall o :: o in was ==> Ready(env, t', o))
    && (known == Discover(env, t) && (forall o :: o in was ==> Ready(env, t, o)) ==> ok && AllThere(env, t', was))
  }

  lemma InstallableSorts(env: Env, known: set<Gvk>, t: Target, was: seq<Object>, os: seq<Object>, faults: seq<Fault>)
    requires |os| == |faults| && FaultFree(faults) && Elements(os) == Elements(was)
    requires StrictWeakOrder(OrderingOf(INSTALL_ORDER), Elements(was)) ==> Sorted(OrderingOf(INSTALL_ORDER), os)
    requires forall o :: o in was ==> Installable(env, known, t, was, o)
    ensures ErrorFree(Ensure, Pass(Ensure, env, known, t, os, faults))
  {
    var ordering := OrderingOf(INSTALL_ORDER);
    forall o | o in Elements(was)
      ensures Listed(ordering, o)
    {
      Ranks(0);
    }
    ListedIsSortable(ordering, Elements(was));
    SameMembers(os, was);
    forall o | o in os
      ensures Installable(env, known, t, os, o)
    {
      assert Installable(env, known, t, was, o);
    }
    InstallOrderSuffices(env, known, t, os, faults);
  }

  lemma SameMembers(s: seq<Object>, t: seq<Object>)
    requires Elements(s) == Elements(t)
    ensures forall o :: o in s <==> o in t
  {
    assert forall o :: o in s <==> o in Elements(s);
    assert forall o :: o in t <==> o in Elements(t);
  }

  lemma ProvidedInAnyOrder(env: Env, t: Target, was: seq<Object>, os: seq<Object>, o: Object)
    requires Provided(env, t, was, o) && Elements(os) == Elements(was)
    ensures Provided(env, t, os, o)
  {
    SameMembers(os, was);
    if o.gvk !in Discover(env, t) {
      var id :| WillServe(env, t, was, o.gvk, id);
      assert WillServe(env, t, os, o.gvk, id);
    }
  }

  lemma SortedPassConverges(env: Env, known: set<Gvk>, t: Target, was: seq<Object>, os: seq<Object>, faults: seq<Fault>)
    requires |os| == |faults| && FaultFree(faults) && multiset(os) == multiset(was)
    requires StrictWeakOrder(OrderingOf(INSTALL_ORDER), Elements(was)) ==> Sorted(OrderingOf(INSTALL_ORDER), os)
    ensures var r := Pass(Ensure, env, known, t, os, faults);
            Converges(env, known, t, was, r.target, ErrorFree(Ensure, r))
  {
    var r := Pass(Ensure, env, known, t, os, faults);
    SameElements(os, was);
    SameMembers(os, was);
    if forall o :: o in was ==> Installable(env, known, t, was, o) {
      InstallableSorts(env, known, t, was, os, faults);
      SuccessMeansAllThere(env, known, t, os, faults);
    }
    if known == Discover(env, t) && forall o :: o in was ==> Provided(env, t, was, o) {
      forall o | o in was
        ensures Ready(env, r.target, o)
      {
        ProvidedInAnyOrder(env, t, was, os, o);
        ProvidedBecomesReady(env, t, os, faults, o);
      }
    }
    if known == Discover(env, t) && forall o :: o in was ==> Ready(env, t, o) {
      ReadyPassSucceeds(env, t, os, faults);
    }
  }
}
