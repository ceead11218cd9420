/** What one ensure or delete pass does to a target, for every fault pattern. */
module Passes {
  import opened Cluster

  /** Outcome `i` of a pass is the answer object `i` got at its own turn, so no
      earlier failure keeps a later object from being attempted. */
  lemma {:induction false} EveryObjectIsAttempted(verb: Verb, env: Env, known: set<Gvk>, t: Target,
                                                   os: seq<Object>, faults: seq<Fault>, i: nat)
    requires |os| == |faults| && i < |os|
    ensures var r := Pass(verb, env, known, t, os, faults);
            var before := Pass(verb, env, known, t, os[..i], faults[..i]);
            var after := Pass(verb, env, known, t, os[..i + 1], faults[..i + 1]);
            (after.target, r.outcomes[i]) == Act(verb, env, known, before.target, os[i], faults[i])
    decreases |os|
  {
    var n := |os| - 1;
    if i < n {
      EveryObjectIsAttempted(verb, env, known, t, os[..n], faults[..n], i);
      assert os[..n][..i] == os[..i] && faults[..n][..i] == faults[..i];
      assert os[..n][..i + 1] == os[..i + 1] && faults[..n][..i + 1] == faults[..i + 1];
    } else {
      assert os[..i + 1] == os && faults[..i + 1] == faults;
    }
  }

  /** `v` is what creating one of the objects under its own identity `id` stores. */
  ghost predicate Rendered(env: Env, known: set<Gvk>, os: seq<Object>, id: Id, v: Object) {
    exists o :: o in os && Mapped(env, known, o) && o.name != "" && IdOf(env, o) == id && v == o.(namespace := id.namespace)
  }

  lemma ActEnsures(env: Env, known: set<Gvk>, t: Target, o: Object, fault: Fault)
    ensures var t' := Act(Ensure, env, known, t, o, fault).0;
            t' == t || (exists id, v :: id !in t && t' == t[id := v] && Rendered(env, known, [o], id, v))
  {
    var t' := Act(Ensure, env, known, t, o, fault).0;
    if t' != t {
      var id := IdOf(env, o);
      var v := o.(namespace := id.namespace);
      assert o in [o];
      assert id !in t && t' == t[id := v] && Rendered(env, known, [o], id, v);
    }
  }

  lemma RenderedByMore(env: Env, known: set<Gvk>, os: seq<Object>, os': seq<Object>, id: Id, v: Object)
    requires Rendered(env, known, os, id, v) && (forall o :: o in os ==> o in os')
    ensures Rendered(env, known, os', id, v)
  {
  }

  /** An ensure pass changes no object that is already there, and whatever it adds is
      a rendered object under its own identity. */
  lemma {:induction false} EnsureOnlyAdds(env: Env, known: set<Gvk>, t: Target, os: seq<Object>, faults: seq<Fault>)
    requires |os| == |faults|
    ensures var t' := Pass(Ensure, env, known, t, os, faults).target;
            && (forall id :: id in t ==> id in t' && t'[id] == t[id])
            && (forall id :: id in t' && id !in t ==> Rendered(env, known, os, id, t'[id]))
  {
    if os != [] {
      var n := |os| - 1;
      var mid := Pass(Ensure, env, known, t, os[..n], faults[..n]).target;
      var t' := Act(Ensure, env, known, mid, os[n], faults[n]).0;
      EnsureOnlyAdds(env, known, t, os[..n], faults[..n]);
      ActEnsures(env, known, mid, os[n], faults[n]);
      forall id | id in t' && id !in t
        ensures Rendered(env, known, os, id, t'[id])
      {
        if id in mid {
          RenderedByMore(env, known, os[..n], os, id, mid[id]);
        } else {
          RenderedByMore(env, known, [os[n]], os, id, t'[id]);
        }
      }
    }
  }

  /** The same for the rest of a pass, from any of its intermediate targets. */
  lemma {:induction false} EnsureOnlyGrows(env: Env, known: set<Gvk>, t: Target, os: seq<Object>, faults: seq<Fault>, i: nat)
    requires |os| == |faults| && i <= |os|
    ensures var mid := Pass(Ensure, env, known, t, os[..i], faults[..i]).target;
            var t' := Pass(Ensure, env, known, t, os, faults).target;
            forall id :: id in mid ==> id in t' && t'[id] == mid[id]
    decreases |os|
  {
    if i < |os| {
      var n := |os| - 1;
      EnsureOnlyGrows(env, known, t, os[..n], faults[..n], i);
      assert os[..n][..i] == os[..i] && faults[..n][..i] == faults[..i];
    } else {
      assert os[..i] == os && faults[..i] == faults;
    }
  }

  /** The namespace, if any, of object `i` is there when its turn comes. */
  ghost predicate NamespaceInTime(env: Env, known: set<Gvk>, t: Target, os: seq<Object>, faults: seq<Fault>, i: nat)
    requires |os| == |faults| && i < |os| && os[i].gvk in env.scopes
  {
    HasNamespace(env, Pass(Ensure, env, known, t, os[..i], faults[..i]).target, os[i])
  }

  /** Object `i` is mapped, named and answered, and its namespace is there in time. */
  ghost predicate Creatable(env: Env, known: set<Gvk>, t: Target, os: seq<Object>, faults: seq<Fault>, i: nat)
    requires |os| == |faults| && i < |os|
  {
    Mapped(env, known, os[i]) && faults[i] == NoFault && os[i].name != "" && NamespaceInTime(env, known, t, os, faults, i)
  }

  /** An ensure pass returns nil iff every object was mapped, its call was answered,
      it has a name, and its namespace was there in time; then all of them are present. */
  lemma EnsureReturnsNilIff(env: Env, known: set<Gvk>, t: Target, os: seq<Object>, faults: seq<Fault>)
    requires |os| == |faults|
    ensures var r := Pass(Ensure, env, known, t, os, faults);
            && (ErrorFree(Ensure, r) <==> forall i :: 0 <= i < |os| ==> Creatable(env, known, t, os, faults, i))
            && (forall i :: 0 <= i < |os| && Fine(Ensure, r.outcomes[i]) ==>
                  os[i].gvk in env.scopes && IdOf(env, os[i]) in r.target && HasNamespace(env, r.target, os[i]))
  {
    var r := Pass(Ensure, env, known, t, os, faults);
    forall i | 0 <= i < |os|
      ensures Fine(Ensure, r.outcomes[i]) <==> Creatable(env, known, t, os, faults, i)
    {
      FineIff(env, known, t, os, faults, i);
    }
    if ErrorFree(Ensure, r) {
      assert forall i :: 0 <= i < |os| ==> Creatable(env, known, t, os, faults, i);
    }
    forall i | 0 <= i < |os| && Fine(Ensure, r.outcomes[i])
      ensures os[i].gvk in env.scopes && IdOf(env, os[i]) in r.target && HasNamespace(env, r.target, os[i])
    {
      FineIff(env, known, t, os, faults, i);
    }
  }

  /** Object `i` is not reported exactly if it could be created, and then it is there. */
  lemma FineIff(env: Env, known: set<Gvk>, t: Target, os: seq<Object>, faults: seq<Fault>, i: nat)
    requires |os| == |faults| && i < |os|
    ensures var r := Pass(Ensure, env, known, t, os, faults);
            && (Fine(Ensure, r.outcomes[i]) <==> Creatable(env, known, t, os, faults, i))
            && (Fine(Ensure, r.outcomes[i]) ==>
                os[i].gvk in env.scopes && IdOf(env, os[i]) in r.target && HasNamespace(env, r.target, os[i]))
  {
    EveryObjectIsAttempted(Ensure, env, known, t, os, faults, i);
    EnsureOnlyGrows(env, known, t, os, faults, i);
    EnsureOnlyGrows(env, known, t, os, faults, i + 1);
  }

  /** Every object is there already, with its namespace. */
  ghost predicate AllThere(env: Env, t: Target, os: seq<Object>) {
    forall o :: o in os ==> o.gvk in env.scopes && o.name != "" && IdOf(env, o) in t && HasNamespace(env, t, o)
  }

  lemma SuccessMeansAllThere(env: Env, known: set<Gvk>, t: Target, os: seq<Object>, faults: seq<Fault>)
    requires |os| == |faults| && ErrorFree(Ensure, Pass(Ensure, env, known, t, os, faults))
    ensures AllThere(env, Pass(Ensure, env, known, t, os, faults).target, os)
  {
    var r := Pass(Ensure, env, known, t, os, faults);
    forall o | o in os
      ensures o.gvk in env.scopes && o.name != "" && IdOf(env, o) in r.target && HasNamespace(env, r.target, o)
    {
      var i :| 0 <= i < |os| && os[i] == o;
      assert Fine(Ensure, r.outcomes[i]);
      FineIff(env, known, t, os, faults, i);
    }
  }

  lemma {:induction false} NothingLeftToCreate(env: Env, known: set<Gvk>, t: Target, os: seq<Object>, faults: seq<Fault>)
    requires |os| == |faults| && FaultFree(faults) && AllThere(env, t, os)
    requires forall o :: o in os ==> o.gvk in known
    ensures var r := Pass(Ensure, env, known, t, os, faults);
            r.target == t && ErrorFree(Ensure, r)
  {
    if os != [] {
      var n := |os| - 1;
      NothingLeftToCreate(env, known, t, os[..n], faults[..n]);
      assert os[n] in os;
    }
  }

  /** Once an ensure pass succeeded, any further fault-free pass over the same objects
      succeeds and changes nothing. */
  lemma EnsureIsIdempotent(env: Env, known: set<Gvk>, t: Target, os: seq<Object>, faults: seq<Fault>,
                           known': set<Gvk>, os': seq<Object>, faults': seq<Fault>)
    requires |os| == |faults| && ErrorFree(Ensure, Pass(Ensure, env, known, t, os, faults))
    requires |os'| == |faults'| && FaultFree(faults')
    requires forall o :: o in os' ==> o in os && o.gvk in known'
    ensures var done := Pass(Ensure, env, known, t, os, faults).target;
            var again := Pass(Ensure, env, known', done, os', faults');
            again.target == done && ErrorFree(Ensure, again)
  {
    SuccessMeansAllThere(env, known, t, os, faults);
    NothingLeftToCreate(env, known', Pass(Ensure, env, known, t, os, faults).target, os', faults');
  }

  /** Some call of a delete pass reached the server and addressed `id`. */
  ghost predicate Struck(env: Env, known: set<Gvk>, os: seq<Object>, faults: seq<Fault>, id: Id)
    requires |os| == |faults|
  {
    exists i :: 0 <= i < |os| && Mapped(env, known, os[i]) && faults[i] != Lost && Covers(env, os[i], id)
  }

  lemma ActDeletes(env: Env, known: set<Gvk>, t: Target, o: Object, fault: Fault)
    ensures var (t', outcome) := Act(Delete, env, known, t, o, fault);
            && (forall id :: id in t' <==> id in t && !(Mapped(env, known, o) && fault != Lost && Covers(env, o, id)))
            && (forall id :: id in t' ==> t'[id] == t[id])
            && (Fine(Delete, outcome) <==> Mapped(env, known, o) && fault == NoFault)
  {
  }

  /** A delete pass removes exactly the identities some effective call addressed, and
      reports no error iff every object was mapped and every call answered. */
  lemma {:induction false} DeleteRemovesExactly(env: Env, known: set<Gvk>, t: Target, os: seq<Object>, faults: seq<Fault>)
    requires |os| == |faults|
    ensures var r := Pass(Delete, env, known, t, os, faults);
            && (forall id :: id in r.target <==> id in t && !Struck(env, known, os, faults, id))
            && (forall id :: id in r.target ==> r.target[id] == t[id])
            && (ErrorFree(Delete, r) <==>
                forall i :: 0 <= i < |os| ==> Mapped(env, known, os[i]) && faults[i] == NoFault)
  {
    if os != [] {
      var n := |os| - 1;
      var r0 := Pass(Delete, env, known, t, os[..n], faults[..n]);
      var r := Pass(Delete, env, known, t, os, faults);
      DeleteRemovesExactly(env, known, t, os[..n], faults[..n]);
      StruckSplits(env, known, os, faults);
      ActDeletes(env, known, r0.target, os[n], faults[n]);
      ErrorFreeSplits(Delete, r0.outcomes, r.outcomes[n], r);
    }
  }

  lemma ErrorFreeSplits(verb: Verb, outcomes: seq<Outcome>, last: Outcome, r: Report)
    requires r.outcomes == outcomes + [last]
    ensures ErrorFree(verb, r) <==> (forall i :: 0 <= i < |outcomes| ==> Fine(verb, outcomes[i])) && Fine(verb, last)
  {
    assert forall i :: 0 <= i < |outcomes| ==> r.outcomes[i] == outcomes[i];
    assert r.outcomes[|outcomes|] == last;
  }

  lemma StruckSplits(env: Env, known: set<Gvk>, os: seq<Object>, faults: seq<Fault>)
    requires |os| == |faults| > 0
    ensures var n := |os| - 1;
            forall id :: Struck(env, known, os, faults, id) <==>
              || Struck(env, known, os[..n], faults[..n], id)
              || (Mapped(env, known, os[n]) && faults[n] != Lost && Covers(env, os[n], id))
  {
    var n := |os| - 1;
    forall id | Struck(env, known, os[..n], faults[..n], id)
      ensures Struck(env, known, os, faults, id)
    {
      var i :| 0 <= i < n && Mapped(env, known, os[..n][i]) && faults[..n][i] != Lost && Covers(env, os[..n][i], id);
      assert Mapped(env, known, os[i]) && faults[i] != Lost && Covers(env, os[i], id);
    }
    forall id | Struck(env, known, os, faults, id)
      ensures || Struck(env, known, os[..n], faults[..n], id)
              || (Mapped(env, known, os[n]) && faults[n] != Lost && Covers(env, os[n], id))
    {
      var i :| 0 <= i < |os| && Mapped(env, known, os[i]) && faults[i] != Lost && Covers(env, os[i], id);
      if i < n {
        assert os[..n][i] == os[i] && faults[..n][i] == faults[i];
      }
    }
  }

  ghost predicate Covered(env: Env, os: seq<Object>, id: Id) {
    exists o :: o in os && Covers(env, o, id)
  }

  /** Frame: at no point does a pass add, change or remove anything outside the
      identities its objects address. */
  lemma PassKeepsTheRest(verb: Verb, env: Env, known: set<Gvk>, t: Target, os: seq<Object>, faults: seq<Fault>, i: nat, id: Id)
    requires |os| == |faults| && i <= |os| && !Covered(env, os, id)
    ensures var mid := Pass(verb, env, known, t, os[..i], faults[..i]).target;
            (id in mid <==> id in t) && (id in t ==> mid[id] == t[id])
  {
    if verb.Ensure? {
      EnsureOnlyAdds(env, known, t, os[..i], faults[..i]);
      var mid := Pass(Ensure, env, known, t, os[..i], faults[..i]).target;
      if id in mid && id !in t {
        var o :| o in os[..i] && Mapped(env, known, o) && IdOf(env, o) == id;
        assert o in os && Covers(env, o, id);
      }
    } else {
      DeleteRemovesExactly(env, known, t, os[..i], faults[..i]);
      assert !Struck(env, known, os[..i], faults[..i], id);
    }
  }

  /** Round trip: after an ensure pass with any faults, an error-free delete pass over
      the same objects in any order leaves the initial target minus what they address. */
  lemma DeleteUndoesEnsure(env: Env, known: set<Gvk>, t: Target, os: seq<Object>, faults: seq<Fault>,
                           known': set<Gvk>, os': seq<Object>, faults': seq<Fault>)
    requires |os| == |faults| && |os'| == |faults'|
    requires forall o :: o in os <==> o in os'
    requires ErrorFree(Delete, Pass(Delete, env, known', Pass(Ensure, env, known, t, os, faults).target, os', faults'))
    ensures var mid := Pass(Ensure, env, known, t, os, faults).target;
            var end := Pass(Delete, env, known', mid, os', faults').target;
            && (forall id :: id in end <==> id in t && !Covered(env, os, id))
            && (forall id :: id in end ==> end[id] == t[id])
  {
    var mid := Pass(Ensure, env, known, t, os, faults).target;
    EnsureOnlyAdds(env, known, t, os, faults);
    DeleteRemovesExactly(env, known', mid, os', faults');
    forall id
      ensures Struck(env, known', os', faults', id) <==> Covered(env, os, id)
    {
      if Covered(env, os, id) {
        var o :| o in os && Covers(env, o, id);
        assert o in os';
        var i :| 0 <= i < |os'| && os'[i] == o;
        assert Mapped(env, known', os'[i]) && faults'[i] == NoFault;
      }
    }
  }

  /** The identities a pass renders. */
  ghost predicate RendersId(env: Env, os: seq<Object>, id: Id) {
    exists o :: o in os && o.gvk in env.scopes && IdOf(env, o) == id
  }

  function LongestName(os: seq<Object>): (n: nat)
    ensures forall o :: o in os ==> |o.name| <= n
  {
    if os == [] then 0
    else
      var n := LongestName(os[1..]);
      assert os == [os[0]] + os[1..];
      if |os[0].name| > n then |os[0].name| else n
  }

  /** The round trip removes the rendered identities and nothing else exactly when every
      mappable object has a name, as it does after an error-free ensure pass. */
  lemma NamedCoverageIff(env: Env, os: seq<Object>)
    ensures (forall id :: Covered(env, os, id) <==> RendersId(env, os, id)) <==>
            (forall o :: o in os && o.gvk in env.scopes ==> o.name != "")
  {
    forall o | o in os && o.gvk in env.scopes && o.name == ""
      ensures exists id :: Covered(env, os, id) && !RendersId(env, os, id)
    {
      var stranger := IdOf(env, o).(name := seq(LongestName(os) + 1, _ => 'a'));
      assert stranger.(name := "") == IdOf(env, o) && Covers(env, o, stranger);
      assert Covered(env, os, stranger) && !RendersId(env, os, stranger);
    }
    forall id | (forall o :: o in os && o.gvk in env.scopes ==> o.name != "")
      ensures Covered(env, os, id) <==> RendersId(env, os, id)
    {
    }
  }

  /** The frame is wider than the rendered identities for an object without a name: its
      delete call goes to the collection and takes a stranger with it, with no error. */
  lemma UnnamedDeleteTakesStrangers()
    ensures var pod := Gvk("", "v1", "Pod");
            var env := Env("shoot", map[pod := Namespaced], {pod});
            var unnamed := Object(pod, "", "", Plain(""));
            var stranger := Id("shoot", "", "Pod", "default", "stranger");
            var r := Pass(Delete, env, {pod}, map[stranger := unnamed], [unnamed], [NoFault]);
            stranger != IdOf(env, unnamed) && ErrorFree(Delete, r) && stranger !in r.target
  {
    var pod := Gvk("", "v1", "Pod");
    var env := Env("shoot", map[pod := Namespaced], {pod});
    var unnamed := Object(pod, "", "", Plain(""));
    var stranger := Id("shoot", "", "Pod", "default", "stranger");
    DeleteRemovesExactly(env, {pod}, map[stranger := unnamed], [unnamed], [NoFault]);
    assert [unnamed][0] == unnamed && Covers(env, unnamed, stranger);
    assert Struck(env, {pod}, [unnamed], [NoFault], stranger);
  }

  // ----- which identity is which

  /** An object of a namespaced kind that is not reported stands under its own group, kind,
      namespace and name, and its namespace is there; one of a cluster-scoped kind has no
      namespace at all. An unset namespace is the one called "default". */
  lemma EnsuredWhere(env: Env, known: set<Gvk>, t: Target, os: seq<Object>, faults: seq<Fault>, i: nat)
    requires |os| == |faults| && i < |os| && os[i].gvk in env.scopes
    requires Fine(Ensure, Pass(Ensure, env, known, t, os, faults).outcomes[i])
    ensures var o, t' := os[i], Pass(Ensure, env, known, t, os, faults).target;
            if env.scopes[o.gvk].ClusterScoped? then Id(env.cluster, o.gvk.group, o.gvk.kind, "", o.name) in t'
            else
              var namespace := if o.namespace != "" then o.namespace else "default";
              && Id(env.cluster, o.gvk.group, o.gvk.kind, namespace, o.name) in t'
              && Id(env.cluster, "", "Namespace", "", namespace) in t'
  {
    FineIff(env, known, t, os, faults, i);
  }

  /** A call for an object with its namespace unset is the call for the one in "default". */
  lemma UnsetMeansDefault(verb: Verb, env: Env, known: set<Gvk>, t: Target, o: Object, fault: Fault)
    requires o.namespace == ""
    ensures Act(verb, env, known, t, o, fault) == Act(verb, env, known, t, o.(namespace := "default"), fault)
  {
    var named := o.(namespace := "default");
    if o.gvk in env.scopes {
      assert IdOf(env, o) == IdOf(env, named);
      assert CreateOn(t, env, o) == CreateOn(t, env, named);
      assert forall id :: Covers(env, o, id) <==> Covers(env, named, id);
      assert DeleteOn(t, env, o).0 == DeleteOn(t, env, named).0;
    }
  }

  /** The same namespace, up to "" for "default". */
  predicate SameNamespace(a: string, b: string) {
    a == b || {a, b} == {"", "default"}
  }

  /** Two objects get one identity exactly if group, kind, name and scope agree, and the
      namespaces too where there are any. */
  lemma SameIdentityIff(env: Env, a: Object, b: Object)
    requires a.gvk in env.scopes && b.gvk in env.scopes
    ensures IdOf(env, a) == IdOf(env, b) <==>
            && a.gvk.group == b.gvk.group && a.gvk.kind == b.gvk.kind && a.name == b.name
            && env.scopes[a.gvk] == env.scopes[b.gvk]
            && (env.scopes[a.gvk].Namespaced? ==> SameNamespace(a.namespace, b.namespace))
  {
    assert SameNamespace(a.namespace, b.namespace) ==> a.namespace in {"", "default"} || a.namespace == b.namespace;
  }
}
