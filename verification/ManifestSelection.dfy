/** Choosing a manifest for a name and a version range, and resolving a pinned reference. */
module ManifestSelection {
  import opened Cluster
  import opened Semver
  import opened ManifestName

  datatype Manifest = Manifest(namespace: string, name: string, spec: string)

  datatype ManifestRef = ManifestRef(namespace: string, name: string, version: string)

  predicate Candidate(m: Manifest, name: string, inRange: Version -> bool) {
    NameAndVersion(m.name).0 == name && inRange(NameAndVersion(m.name).1)
  }

  function VersionOf(m: Manifest): Version {
    NameAndVersion(m.name).1
  }

  /** The version of a candidate, and nothing for the others. */
  function Offer(m: Manifest, name: string, inRange: Version -> bool): Option<Version> {
    if Candidate(m, name, inRange) then Some(VersionOf(m)) else None
  }

  function Offers(ms: seq<Manifest>, name: string, inRange: Version -> bool): seq<Option<Version>> {
    seq(|ms|, i requires 0 <= i < |ms| => Offer(ms[i], name, inRange))
  }

  /** Position `k` offers a version no other offer has precedence over, and is the first
      of those. */
  ghost predicate Wins(vs: seq<Option<Version>>, k: nat) {
    && k < |vs| && vs[k].Some?
    && (forall j :: 0 <= j < |vs| && vs[j].Some? ==> Compare(vs[j].value, vs[k].value) <= 0)
    && (forall j :: 0 <= j < k && vs[j].Some? ==> Compare(vs[j].value, vs[k].value) < 0)
  }

  /** What is selected: the first listed manifest of the greatest precedence among those
      with the name and in the range. */
  ghost predicate Selected(ms: seq<Manifest>, name: string, inRange: Version -> bool, k: nat) {
    Wins(Offers(ms, name, inRange), k)
  }

  /** The manifest has the name, and its version is in the range. */
  ghost predicate Fits(m: Manifest, name: string, inRange: Version -> bool) {
    var (curName, curVersion) := NameAndVersion(m.name);
    curName == name && inRange(curVersion)
  }

  lemma NothingFitsIff(ms: seq<Manifest>, name: string, inRange: Version -> bool)
    ensures (forall k :: 0 <= k < |ms| ==> Offers(ms, name, inRange)[k].None?) <==> (forall m :: m in ms ==> !Fits(m, name, inRange))
  {
    forall k | 0 <= k < |ms|
      ensures Offers(ms, name, inRange)[k].Some? <==> Fits(ms[k], name, inRange)
    {
    }
  }

  /** Selection spelled out: `k` fits, nothing that fits has precedence over it, and nothing
      listed before it ties with it. */
  lemma SelectedIff(ms: seq<Manifest>, name: string, inRange: Version -> bool, k: nat)
    ensures Selected(ms, name, inRange, k) <==>
            && k < |ms| && Fits(ms[k], name, inRange)
            && (forall j :: 0 <= j < |ms| && Fits(ms[j], name, inRange) ==>
                  Compare(NameAndVersion(ms[j].name).1, NameAndVersion(ms[k].name).1) <= if j < k then -1 else 0)
  {
    var vs := Offers(ms, name, inRange);
    forall j | 0 <= j < |ms|
      ensures vs[j] == if Fits(ms[j], name, inRange) then Some(NameAndVersion(ms[j].name).1) else None
    {
    }
  }

  predicate Beats(v: Option<Version>, best: Option<Version>) {
    v.Some? && (best.None? || Compare(v.value, best.value) == 1)
  }

  lemma WinnerStays(vs: seq<Option<Version>>, v: Option<Version>, k: nat)
    requires Wins(vs, k) && !Beats(v, vs[k])
    ensures Wins(vs + [v], k)
  {
    if v.Some? {
      PrecedenceIsTotal(v.value, vs[k].value, v.value);
    }
  }

  lemma WinnerChanges(vs: seq<Option<Version>>, v: Option<Version>, k: nat)
    requires Wins(vs, k) && Beats(v, vs[k])
    ensures Wins(vs + [v], |vs|)
  {
    forall j | 0 <= j < |vs| && vs[j].Some?
      ensures Compare(vs[j].value, v.value) < 0
    {
      PrecedenceIsTotal(vs[j].value, vs[k].value, v.value);
      PrecedenceIsTotal(vs[k].value, v.value, v.value);
      PrecedenceIsTotal(vs[j].value, v.value, v.value);
    }
    PrecedenceIsTotal(v.value, v.value, v.value);
  }

  lemma FirstWinner(vs: seq<Option<Version>>, v: Option<Version>)
    requires v.Some? && forall j :: 0 <= j < |vs| ==> vs[j].None?
    ensures Wins(vs + [v], |vs|)
  {
    PrecedenceIsTotal(v.value, v.value, v.value);
  }

  /** The scan keeps the best version so far and its manifest. */
  method FindManifestForRange(ms: seq<Manifest>, name: string, inRange: Version -> bool) returns (r: Option<Manifest>)
    ensures r.None? ==> forall k :: 0 <= k < |ms| ==> Offers(ms, name, inRange)[k].None?
    ensures r.Some? ==> exists k: nat :: Selected(ms, name, inRange, k) && ms[k] == r.value
  {
    var version: Option<Version> := None;
    r := None;
    ghost var vs: seq<Option<Version>>, best: nat := [], 0;
    for i := 0 to |ms|
      invariant vs == Offers(ms[..i], name, inRange)
      invariant r.None? ==> version.None? && forall j :: 0 <= j < i ==> vs[j].None?
      invariant r.Some? ==> Wins(vs, best) && vs[best] == version && ms[best] == r.value
    {
      var (curName, curVersion) := NameAndVersion(ms[i].name);
      ghost var v := Offer(ms[i], name, inRange);
      OffersExtend(ms, name, inRange, i);
      if curName == name && inRange(curVersion) && (version.None? || Compare(curVersion, version.value) == 1) {
        if r.None? { FirstWinner(vs, v); } else { WinnerChanges(vs, v, best); }
        version := Some(curVersion);
        r := Some(ms[i]);
        best := i;
      } else if r.Some? {
        WinnerStays(vs, v, best);
      }
      vs := vs + [v];
    }
    assert ms[..|ms|] == ms;
    if r.Some? {
      assert Selected(ms, name, inRange, best);
    }
  }

  lemma OffersExtend(ms: seq<Manifest>, name: string, inRange: Version -> bool, i: nat)
    requires i < |ms|
    ensures Offers(ms[..i + 1], name, inRange) == Offers(ms[..i], name, inRange) + [Offer(ms[i], name, inRange)]
  {
  }

  /** Selection leaves no choice. */
  lemma SelectedIsUnique(ms: seq<Manifest>, name: string, inRange: Version -> bool, j: nat, k: nat)
    requires Selected(ms, name, inRange, j) && Selected(ms, name, inRange, k)
    ensures j == k
  {
    var vs := Offers(ms, name, inRange);
    PrecedenceIsTotal(vs[j].value, vs[k].value, vs[j].value);
  }

  /** Manifests of one namespace: their names differ, and none holds a plus sign. */
  ghost predicate OneNamespace(ms: seq<Manifest>) {
    && (forall i, j :: 0 <= i < j < |ms| ==> ms[i].name != ms[j].name)
    && (forall i :: 0 <= i < |ms| ==> '+' !in ms[i].name)
  }

  lemma TiedManifestsAreEqual(a: Manifest, b: Manifest)
    requires WellFormed(a.name) && WellFormed(b.name) && '+' !in a.name && '+' !in b.name
    requires NameAndVersion(a.name).0 == NameAndVersion(b.name).0 && Compare(VersionOf(a), VersionOf(b)) == 0
    ensures a.name == b.name
  {
    WellFormedPrints(a.name);
    WellFormedPrints(b.name);
    PrecedenceIsTotal(VersionOf(a), VersionOf(b), VersionOf(a));
    assert VersionOf(a) == VersionOf(a).(build := []) && VersionOf(b) == VersionOf(b).(build := []);
    WellFormedNamesAreDistinct(a.name, b.name);
  }

  /** The order of a listing does not matter: over well-formed manifests of one namespace,
      whatever is selected from one order is selected from any other. */
  lemma SelectionIgnoresOrder(ms: seq<Manifest>, ms': seq<Manifest>, name: string, inRange: Version -> bool, k: nat, k': nat)
    requires OneNamespace(ms) && OneNamespace(ms') && forall m :: m in ms <==> m in ms'
    requires forall m :: m in ms && Candidate(m, name, inRange) ==> WellFormed(m.name)
    requires Selected(ms, name, inRange, k) && Selected(ms', name, inRange, k')
    ensures ms[k] == ms'[k']
  {
    var vs, vs' := Offers(ms, name, inRange), Offers(ms', name, inRange);
    assert ms[k] in ms' && ms'[k'] in ms;
    var j :| 0 <= j < |ms| && ms[j] == ms'[k'];
    var i :| 0 <= i < |ms'| && ms'[i] == ms[k];
    assert vs[j] == vs'[k'] && vs'[i] == vs[k];
    PrecedenceIsTotal(vs[j].value, vs[k].value, vs[j].value);
    assert Candidate(ms[j], name, inRange) && Candidate(ms[k], name, inRange);
    TiedManifestsAreEqual(ms[j], ms[k]);
  }

  /** So a manifest without a version in its name is never chosen for an addon that has one. */
  lemma NoVersionNoChoice(m: Manifest, name: string, inRange: Version -> bool)
    requires '\n' in m.name || forall i :: 0 <= i < |m.name| && m.name[i] == '-' ==> !VersionTail(m.name[i + 1..])
    requires name != ""
    ensures !Fits(m, name, inRange)
  {
    NoVersionNoName(m.name);
  }
}
