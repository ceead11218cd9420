/** The shoot controller: from an annotation to AddonInstances. */
module Shoot {
  import opened Cluster
  import opened Semver
  import opened ManifestName
  import opened ManifestSelection
  import opened Pinning
  import Reconciler

  datatype ShootRef = ShootRef(namespace: string, name: string, uid: string)

  datatype InstanceKey = InstanceKey(namespace: string, name: string)

  datatype AddonInstance = AddonInstance(owner: ShootRef, finalizers: seq<string>, manifest: ManifestRef, targetShoot: string)

  type Instances = map<InstanceKey, AddonInstance>

  datatype Error = BadAnnotation | DuplicateAddons | ListFailed | NoManifest(name: string)

  datatype Result<T> = Ok(value: T) | Err(error: Error)

  function AnyVersion(): Version -> bool {
    _ => true
  }

  /** What one manifest asks for: the key of its instance, and the instance. */
  datatype Wanted = Wanted(key: InstanceKey, instance: AddonInstance)

  function InstanceName(shoot: string, addon: string): string {
    shoot + ['-'] + addon
  }

  function WantedFor(shoot: ShootRef, m: Manifest): Wanted {
    Wanted(InstanceKey(shoot.namespace, InstanceName(shoot.name, NameAndVersion(m.name).0)),
           AddonInstance(shoot, [Reconciler.BOUQUET], PinOf(m), shoot.name))
  }

  function AllWanted(shoot: ShootRef, ms: seq<Manifest>): seq<Wanted> {
    seq(|ms|, i requires 0 <= i < |ms| => WantedFor(shoot, ms[i]))
  }

  ghost predicate Distinct(names: seq<string>) {
    forall i, j :: 0 <= i < j < |names| ==> names[i] != names[j]
  }

  function Names(names: seq<string>): set<string> {
    set n | n in names
  }

  lemma LastNameIsNewIff(names: seq<string>)
    requires names != []
    ensures var k := |names| - 1;
            && Names(names) == Names(names[..k]) + {names[k]}
            && (Distinct(names) <==> Distinct(names[..k]) && names[k] !in Names(names[..k]))
  {
    var k := |names| - 1;
    assert names == names[..k] + [names[k]];
    if Distinct(names[..k]) && names[k] !in Names(names[..k]) {
      assert forall i :: 0 <= i < k ==> names[..k][i] == names[i] && names[i] in Names(names[..k]);
    }
    if names[k] in Names(names[..k]) {
      var i :| 0 <= i < k && names[i] == names[k];
    }
  }

  lemma {:induction false} SetSizeTellsDuplicates(names: seq<string>)
    ensures |Names(names)| <= |names|
    ensures |Names(names)| == |names| <==> Distinct(names)
  {
    if names != [] {
      var k := |names| - 1;
      var before := Names(names[..k]);
      SetSizeTellsDuplicates(names[..k]);
      LastNameIsNewIff(names);
      if names[k] in before {
        assert before + {names[k]} == before;
      }
    }
  }

  /** `m` has the name and is what the listing offers for it. */
  ghost predicate Chosen(listing: Option<seq<Manifest>>, name: string, m: Manifest) {
    listing.Some? && exists k: nat :: Selected(listing.value, name, AnyVersion(), k) && listing.value[k] == m
  }

  ghost predicate AllChosen(listings: seq<Option<seq<Manifest>>>, names: seq<string>, ms: seq<Manifest>) {
    |ms| <= |names| && |ms| <= |listings| && forall i :: 0 <= i < |ms| ==> Chosen(listings[i], names[i], ms[i])
  }

  /** The lister fails, or nothing it lists has the name. */
  ghost predicate NothingChosen(listing: Option<seq<Manifest>>, name: string) {
    listing.Some? ==> forall k :: 0 <= k < |listing.value| ==> Offers(listing.value, name, AnyVersion())[k].None?
  }

  /** `decoded` is the annotation as a list, if it is one, and `listings` what the lister
      answers, one per name because it is asked anew for each. */
  method ExtractAddonManifests(decoded: Option<seq<string>>, listings: seq<Option<seq<Manifest>>>) returns (r: Result<seq<Manifest>>)
    requires decoded.Some? ==> |listings| == |decoded.value|
    ensures decoded.None? ==> r == Err(BadAnnotation)
    ensures decoded.Some? && !Distinct(decoded.value) ==> r == Err(DuplicateAddons)
    ensures r.Ok? ==> decoded.Some? && Distinct(decoded.value) && |r.value| == |decoded.value| && AllChosen(listings, decoded.value, r.value)
    ensures r.Err? && decoded.Some? && Distinct(decoded.value) ==>
              exists i :: 0 <= i < |listings| && NothingChosen(listings[i], decoded.value[i])
  {
    if decoded.None? { return Err(BadAnnotation); }
    var names := decoded.value;
    SetSizeTellsDuplicates(names);
    if |Names(names)| != |names| { return Err(DuplicateAddons); }
    var manifests: seq<Manifest> := [];
    for i := 0 to |names|
      invariant |manifests| == i && AllChosen(listings, names, manifests)
    {
      if listings[i].None? {
        assert NothingChosen(listings[i], names[i]);
        return Err(ListFailed);
      }
      var found := FindManifestForRange(listings[i].value, names[i], AnyVersion());
      if found.None? {
        assert NothingChosen(listings[i], names[i]);
        return Err(NoManifest(names[i]));
      }
      assert Chosen(listings[i], names[i], found.value);
      manifests := manifests + [found.value];
    }
    return Ok(manifests);
  }

  lemma ChosenIsSomething(listing: Option<seq<Manifest>>, name: string, m: Manifest)
    requires Chosen(listing, name, m)
    ensures !NothingChosen(listing, name)
  {
  }

  lemma ChosenHasTheName(listing: Option<seq<Manifest>>, name: string, m: Manifest)
    requires Chosen(listing, name, m)
    ensures NameAndVersion(m.name).0 == name && m in listing.value
  {
    var k: nat :| Selected(listing.value, name, AnyVersion(), k) && listing.value[k] == m;
    assert Offers(listing.value, name, AnyVersion())[k] == Offer(m, name, AnyVersion());
  }

  // ----- creating the instances

  /** One create call: an instance that is there stays as it is. */
  function CreateInstance(t: Instances, key: InstanceKey, instance: AddonInstance, fault: Fault): (Instances, Answer) {
    var t' := if key in t || fault == Lost then t else t[key := instance];
    (t', if fault != NoFault then Refused else if key in t then AlreadyExists else Done)
  }

  function EnsureAll(t: Instances, wanted: seq<Wanted>, faults: seq<Fault>): Instances
    requires |wanted| == |faults|
  {
    if wanted == [] then t
    else
      var n := |wanted| - 1;
      CreateInstance(EnsureAll(t, wanted[..n], faults[..n]), wanted[n].key, wanted[n].instance, faults[n]).0
  }

  class Server {
    var instances: Instances

    method Create(key: InstanceKey, instance: AddonInstance, fault: Fault) returns (answer: Answer)
      modifies this
      ensures (instances, answer) == CreateInstance(old(instances), key, instance, fault)
    {
      answer := if fault != NoFault then Refused else if key in instances then AlreadyExists else Done;
      if key !in instances && fault != Lost {
        instances := instances[key := instance];
      }
    }
  }

  lemma EnsureAllExtends(t: Instances, wanted: seq<Wanted>, faults: seq<Fault>, i: nat)
    requires |wanted| == |faults| && i < |wanted|
    ensures EnsureAll(t, wanted[..i + 1], faults[..i + 1])
         == CreateInstance(EnsureAll(t, wanted[..i], faults[..i]), wanted[i].key, wanted[i].instance, faults[i]).0
  {
    assert wanted[..i + 1][..i] == wanted[..i] && faults[..i + 1][..i] == faults[..i];
  }

  /** Counts the errors; a failed create does not keep the later ones from being tried. */
  method CreateAll(server: Server, wanted: seq<Wanted>, faults: seq<Fault>) returns (errors: nat)
    requires |wanted| == |faults|
    modifies server
    ensures server.instances == EnsureAll(old(server.instances), wanted, faults)
    ensures errors == 0 <==> FaultFree(faults)
  {
    errors := 0;
    ghost var was := server.instances;
    for i := 0 to |wanted|
      invariant server.instances == EnsureAll(was, wanted[..i], faults[..i])
      invariant errors == 0 <==> forall j :: 0 <= j < i ==> faults[j] == NoFault
    {
      EnsureAllExtends(was, wanted, faults, i);
      var answer := server.Create(wanted[i].key, wanted[i].instance, faults[i]);
      if answer != Done && answer != AlreadyExists { errors := errors + 1; }
    }
    assert wanted[..|wanted|] == wanted && faults[..|wanted|] == faults;
  }

  method EnsureAddons(server: Server, shoot: ShootRef, ms: seq<Manifest>, faults: seq<Fault>) returns (errors: nat)
    requires |ms| == |faults|
    modifies server
    ensures server.instances == EnsureAll(old(server.instances), AllWanted(shoot, ms), faults)
    ensures errors == 0 <==> FaultFree(faults)
  {
    errors := CreateAll(server, AllWanted(shoot, ms), faults);
  }

  method Reconcile(server: Server, shoot: ShootRef, deleting: bool, decoded: Option<seq<string>>, listings: seq<Option<seq<Manifest>>>,
                   faults: seq<Fault>) returns (ok: bool, ghost manifests: seq<Manifest>)
    requires decoded.Some? ==> |listings| == |faults| == |decoded.value|
    modifies server
    ensures deleting ==> ok && server.instances == old(server.instances)
    ensures !deleting && (decoded.None? || !Distinct(decoded.value)) ==> !ok && server.instances == old(server.instances)
    ensures !deleting && decoded.Some? && Distinct(decoded.value) ==>
              if exists i :: 0 <= i < |listings| && NothingChosen(listings[i], decoded.value[i]) then
                !ok && server.instances == old(server.instances)
              else
                && |manifests| == |decoded.value| && AllChosen(listings, decoded.value, manifests)
                && server.instances == EnsureAll(old(server.instances), AllWanted(shoot, manifests), faults)
                && (ok <==> FaultFree(faults))
    ensures forall key :: key in old(server.instances) ==> key in server.instances && server.instances[key] == old(server.instances[key])
  {
    manifests := [];
    if deleting { return true, []; }
    var r := ExtractAddonManifests(decoded, listings);
    if r.Err? { return false, []; }
    manifests := r.value;
    forall i | 0 <= i < |listings|
      ensures !NothingChosen(listings[i], decoded.value[i])
    {
      assert Chosen(listings[i], decoded.value[i], manifests[i]);
      ChosenIsSomething(listings[i], decoded.value[i], manifests[i]);
    }
    EnsureAllOnlyAdds(server.instances, AllWanted(shoot, manifests), faults);
    var errors := EnsureAddons(server, shoot, r.value, faults);
    return errors == 0, manifests;
  }

  /** Nothing existing is changed or removed, what is added is wanted, and without faults
      everything wanted is there afterwards. */
  lemma {:induction false} EnsureAllOnlyAdds(t: Instances, wanted: seq<Wanted>, faults: seq<Fault>)
    requires |wanted| == |faults|
    ensures var t' := EnsureAll(t, wanted, faults);
            && (forall key :: key in t ==> key in t' && t'[key] == t[key])
            && (forall key :: key in t' && key !in t ==> Wanted(key, t'[key]) in wanted)
            && (forall i :: 0 <= i < |wanted| && faults[i] != Lost ==> wanted[i].key in t')
            && (FaultFree(faults) ==> forall w :: w in wanted ==> w.key in t')
  {
    if wanted != [] {
      var n := |wanted| - 1;
      EnsureAllOnlyAdds(t, wanted[..n], faults[..n]);
      OneMoreWanted(wanted);
      assert FaultFree(faults) ==> FaultFree(faults[..n]) && faults[n] == NoFault;
    }
  }

  lemma OneMoreWanted(wanted: seq<Wanted>)
    requires wanted != []
    ensures var n := |wanted| - 1;
            forall w :: w in wanted <==> w in wanted[..n] || w == wanted[n]
  {
    assert wanted == wanted[..|wanted| - 1] + [wanted[|wanted| - 1]];
  }

  /** What a reconcile adds is an instance of its shoot that carries the finalizer and the
      pin of a manifest. */
  lemma AddedInstances(t: Instances, shoot: ShootRef, ms: seq<Manifest>, faults: seq<Fault>, key: InstanceKey)
    requires |ms| == |faults| && key in EnsureAll(t, AllWanted(shoot, ms), faults) && key !in t
    ensures var added := EnsureAll(t, AllWanted(shoot, ms), faults)[key];
            && added.finalizers == ["bouquet"] && added.owner == shoot && added.targetShoot == shoot.name
            && exists m :: m in ms && key == InstanceKey(shoot.namespace, shoot.name + "-" + NameAndVersion(m.name).0)
                   && added.manifest == ManifestRef(m.namespace, NameAndVersion(m.name).0, Print(NameAndVersion(m.name).1))
  {
    EnsureAllOnlyAdds(t, AllWanted(shoot, ms), faults);
    var added := EnsureAll(t, AllWanted(shoot, ms), faults)[key];
    var i :| 0 <= i < |ms| && AllWanted(shoot, ms)[i] == Wanted(key, added);
    assert ms[i] in ms;
  }

  lemma {:induction false} NothingLeftToAdd(t: Instances, wanted: seq<Wanted>, faults: seq<Fault>)
    requires |wanted| == |faults| && forall w :: w in wanted ==> w.key in t
    ensures EnsureAll(t, wanted, faults) == t
  {
    if wanted != [] {
      NothingLeftToAdd(t, wanted[..|wanted| - 1], faults[..|wanted| - 1]);
      assert wanted[|wanted| - 1] in wanted;
    }
  }

  lemma SameNamesSameKeys(shoot: ShootRef, names: seq<string>, ms: seq<Manifest>)
    requires |ms| == |names| && forall i :: 0 <= i < |ms| ==> NameAndVersion(ms[i].name).0 == names[i]
    ensures forall i :: 0 <= i < |ms| ==> AllWanted(shoot, ms)[i].key == InstanceKey(shoot.namespace, InstanceName(shoot.name, names[i]))
  {
  }

  lemma ChosenNames(listings: seq<Option<seq<Manifest>>>, names: seq<string>, ms: seq<Manifest>)
    requires |ms| == |names| && AllChosen(listings, names, ms)
    ensures forall i :: 0 <= i < |ms| ==> NameAndVersion(ms[i].name).0 == names[i]
  {
    forall i | 0 <= i < |ms|
      ensures NameAndVersion(ms[i].name).0 == names[i]
    {
      ChosenHasTheName(listings[i], names[i], ms[i]);
    }
  }

  /** Once a reconcile succeeded, later ones for the same addons change no instance, even
      where newer listings make them choose other manifests. */
  lemma LaterReconcilesChangeNothing(t: Instances, shoot: ShootRef, names: seq<string>,
                                     listings: seq<Option<seq<Manifest>>>, ms: seq<Manifest>, faults: seq<Fault>,
                                     listings': seq<Option<seq<Manifest>>>, ms': seq<Manifest>, faults': seq<Fault>)
    requires |ms| == |faults| == |names| == |ms'| == |faults'| && FaultFree(faults)
    requires AllChosen(listings, names, ms) && AllChosen(listings', names, ms')
    ensures var settled := EnsureAll(t, AllWanted(shoot, ms), faults);
            EnsureAll(settled, AllWanted(shoot, ms'), faults') == settled
  {
    var wanted, wanted' := AllWanted(shoot, ms), AllWanted(shoot, ms');
    ChosenNames(listings, names, ms);
    ChosenNames(listings', names, ms');
    SameNamesSameKeys(shoot, names, ms);
    SameNamesSameKeys(shoot, names, ms');
    EnsureAllOnlyAdds(t, wanted, faults);
    forall w | w in wanted'
      ensures w.key in EnsureAll(t, wanted, faults)
    {
      var i :| 0 <= i < |ms'| && wanted'[i] == w;
      assert wanted[i] in wanted;
    }
    NothingLeftToAdd(EnsureAll(t, wanted, faults), wanted', faults');
  }

  // ----- instance names

  /** One shoot name is the other, a dash and `w`, and the addon names make up for it. */
  ghost predicate Overlap(s: string, a: string, t: string, b: string, w: string) {
    t == s + ['-'] + w && a == w + ['-'] + b
  }

  lemma OverlapFromShorter(s: string, a: string, t: string, b: string)
    requires InstanceName(s, a) == InstanceName(t, b) && |s| < |t|
    ensures Overlap(s, a, t, b, t[|s| + 1..])
  {
    var name := InstanceName(s, a);
    var w := t[|s| + 1..];
    assert t == name[..|t|] && s == name[..|s|] && name[|s|] == '-';
    assert t == s + ['-'] + w;
    assert a == name[|s| + 1..] && b == name[|t| + 1..] && name[|t|] == '-';
    assert a == w + ['-'] + b;
  }

  lemma SameLengthSameParts(s: string, a: string, t: string, b: string)
    requires InstanceName(s, a) == InstanceName(t, b) && |s| == |t|
    ensures s == t && a == b
  {
    assert s == InstanceName(s, a)[..|s|] && t == InstanceName(t, b)[..|t|];
    assert a == InstanceName(s, a)[|s| + 1..] && b == InstanceName(t, b)[|t| + 1..];
  }

  /** Instance-name collisions: two different pairs of shoot and addon share an instance name
      exactly when they overlap, one way or the other. */
  lemma CollisionIff(s: string, a: string, t: string, b: string)
    requires (s, a) != (t, b)
    ensures InstanceName(s, a) == InstanceName(t, b) <==> exists w :: Overlap(s, a, t, b, w) || Overlap(t, b, s, a, w)
  {
    if InstanceName(s, a) == InstanceName(t, b) {
      if |s| < |t| {
        OverlapFromShorter(s, a, t, b);
      } else if |t| < |s| {
        OverlapFromShorter(t, b, s, a);
      } else {
        SameLengthSameParts(s, a, t, b);
      }
    }
    forall w | Overlap(s, a, t, b, w) || Overlap(t, b, s, a, w)
      ensures InstanceName(s, a) == InstanceName(t, b)
    {
      assert s + ['-'] + (w + ['-'] + b) == (s + ['-'] + w) + ['-'] + b;
      assert t + ['-'] + (w + ['-'] + a) == (t + ['-'] + w) + ['-'] + a;
    }
  }

  predicate DashPrefix(s: string, t: string) {
    |s| < |t| && s == t[..|s|] && t[|s|] == '-'
  }

  /** Names are injective over shoots none of which is a dash-prefix of another; for one
      shoot in particular, different addons get different instances. */
  lemma NamesAreInjective(s: string, a: string, t: string, b: string)
    requires !DashPrefix(s, t) && !DashPrefix(t, s) && InstanceName(s, a) == InstanceName(t, b)
    ensures s == t && a == b
  {
    if (s, a) != (t, b) {
      CollisionIff(s, a, t, b);
    }
  }

  /** The instances one reconcile wants have pairwise different names. */
  lemma InstancesOfAShootAreDistinct(shoot: ShootRef, names: seq<string>, listings: seq<Option<seq<Manifest>>>, ms: seq<Manifest>,
                                     i: nat, j: nat)
    requires Distinct(names) && |ms| == |names| && AllChosen(listings, names, ms) && i < j < |ms|
    ensures AllWanted(shoot, ms)[i].key != AllWanted(shoot, ms)[j].key
  {
    ChosenNames(listings, names, ms);
    SameNamesSameKeys(shoot, names, ms);
    if InstanceName(shoot.name, names[i]) == InstanceName(shoot.name, names[j]) {
      NamesAreInjective(shoot.name, names[i], shoot.name, names[j]);
    }
  }

  /** With distinct keys, what is added under a key is what was wanted there. */
  lemma AddedAsWanted(t: Instances, wanted: seq<Wanted>, faults: seq<Fault>, i: nat)
    requires |wanted| == |faults| && i < |wanted| && wanted[i].key in EnsureAll(t, wanted, faults) && wanted[i].key !in t
    requires forall j, k :: 0 <= j < k < |wanted| ==> wanted[j].key != wanted[k].key
    ensures EnsureAll(t, wanted, faults)[wanted[i].key] == wanted[i].instance
  {
    EnsureAllOnlyAdds(t, wanted, faults);
    var j :| 0 <= j < |wanted| && wanted[j] == Wanted(wanted[i].key, EnsureAll(t, wanted, faults)[wanted[i].key]);
    assert j == i;
  }

  /** What a reconcile adds under the key of a chosen manifest is pinned to that manifest. */
  lemma AddedIsPinned(t: Instances, shoot: ShootRef, names: seq<string>, listings: seq<Option<seq<Manifest>>>, ms: seq<Manifest>,
                      faults: seq<Fault>, i: nat)
    requires Distinct(names) && |ms| == |names| == |faults| && AllChosen(listings, names, ms) && i < |ms|
    requires var key := AllWanted(shoot, ms)[i].key;
             key in EnsureAll(t, AllWanted(shoot, ms), faults) && key !in t
    ensures EnsureAll(t, AllWanted(shoot, ms), faults)[AllWanted(shoot, ms)[i].key] == WantedFor(shoot, ms[i]).instance
  {
    var wanted := AllWanted(shoot, ms);
    forall j, k | 0 <= j < k < |wanted|
      ensures wanted[j].key != wanted[k].key
    {
      InstancesOfAShootAreDistinct(shoot, names, listings, ms, j, k);
    }
    AddedAsWanted(t, wanted, faults, i);
  }

  /** The controllers meet: the instance added for the addon `names[i]` refers to the manifest
      chosen for that name, and over any listing of its namespace that still holds it the
      reference resolves to it exactly when its version holds no `x` and no alias comes first. */
  lemma AddedInstancesResolve(t: Instances, shoot: ShootRef, names: seq<string>, listings: seq<Option<seq<Manifest>>>, ms: seq<Manifest>,
                              faults: seq<Fault>, i: nat, listing: seq<Manifest>, k: nat)
    requires Distinct(names) && |ms| == |names| == |faults| && AllChosen(listings, names, ms) && i < |ms|
    requires var key := InstanceKey(shoot.namespace, InstanceName(shoot.name, names[i]));
             key in EnsureAll(t, AllWanted(shoot, ms), faults) && key !in t
    requires OneNamespace(listing) && k < |listing| && listing[k] == ms[i] && WellFormed(ms[i].name)
    ensures var key := InstanceKey(shoot.namespace, InstanceName(shoot.name, names[i]));
            var ref := EnsureAll(t, AllWanted(shoot, ms), faults)[key].manifest;
            && ref.namespace == ms[i].namespace && ref.name == names[i]
            && (Resolves(listing, ref, k) <==> 'x' !in ref.version && forall j :: 0 <= j < k ==> !Alias(listing[j], listing[k]))
  {
    ChosenNames(listings, names, ms);
    SameNamesSameKeys(shoot, names, ms);
    AddedIsPinned(t, shoot, names, listings, ms, faults, i);
    PinResolvesIff(listing, k);
  }

  /** What is chosen is listed, has the name, and no listed manifest of the name has
      precedence over it. */
  lemma ChosenIsGreatest(listing: Option<seq<Manifest>>, name: string, m: Manifest)
    requires Chosen(listing, name, m)
    ensures listing.Some? && m in listing.value && NameAndVersion(m.name).0 == name
    ensures forall o :: o in listing.value && NameAndVersion(o.name).0 == name ==>
              Compare(NameAndVersion(o.name).1, NameAndVersion(m.name).1) <= 0
  {
    var k: nat :| Selected(listing.value, name, AnyVersion(), k) && listing.value[k] == m;
    SelectedIff(listing.value, name, AnyVersion(), k);
    forall o | o in listing.value && NameAndVersion(o.name).0 == name
      ensures Compare(NameAndVersion(o.name).1, NameAndVersion(m.name).1) <= 0
    {
      var j :| 0 <= j < |listing.value| && listing.value[j] == o;
      assert Fits(listing.value[j], name, AnyVersion());
    }
  }

  /** Nothing is chosen exactly if the lister fails or lists no manifest of the name. */
  lemma NothingChosenIff(listing: Option<seq<Manifest>>, name: string)
    ensures NothingChosen(listing, name) <==> listing.None? || forall o :: o in listing.value ==> NameAndVersion(o.name).0 != name
  {
    if listing.Some? {
      NothingFitsIff(listing.value, name, AnyVersion());
      assert forall o :: Fits(o, name, AnyVersion()) <==> NameAndVersion(o.name).0 == name;
    }
  }
}
