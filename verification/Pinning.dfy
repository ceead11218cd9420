/** The pin one controller writes and the other resolves. */
module Pinning {
  import opened Cluster
  import opened Semver
  import opened SemverText
  import opened ManifestName
  import opened ManifestSelection

  /** What the library makes of a range string: an exact version, an error, or a form with
      operators, blanks or wildcards that is left to the library. */
  datatype Range = Exact(v: Version) | Invalid | Library

  function LastPart(parts: seq<string>): string
    requires parts != []
  {
    parts[|parts| - 1]
  }

  /** A string without blanks that starts with a digit is one part without an operator. If
      it holds an `x` it is expanded as a wildcard; unless its last part of at most three is
      that `x`, the upper bound of the expansion has no version and the range is refused. */
  function ParseRange(s: string): Range {
    if |s| < 2 then Invalid
    else if ' ' in s || !IsDigit(s[0]) then Library
    else if 'x' in s then
      if |Split(s, '.')| <= 3 && LastPart(Split(s, '.')) == "x" then Library else Invalid
    else
      var v := Parse(s);
      if v.Some? then Exact(v.value) else Invalid
  }

  function Equals(v: Version): Version -> bool {
    u => Compare(u, v) == 0
  }

  /** The reference the shoot controller writes for a manifest. */
  function PinOf(m: Manifest): ManifestRef {
    var (name, version) := NameAndVersion(m.name);
    ManifestRef(m.namespace, name, Print(version))
  }

  /** The reference resolves to the manifest at `k` of the listing. */
  ghost predicate Resolves(ms: seq<Manifest>, ref: ManifestRef, k: nat) {
    ParseRange(ref.version).Exact? && Selected(ms, ref.name, Equals(ParseRange(ref.version).v), k)
  }

  // ----- when a pinned version is read back as itself

  lemma PrintedLength(v: Version)
    ensures |Print(v)| >= 5 && IsDigit(Print(v)[0])
  {
    DecimalParses(v.major);
    DecimalParses(v.minor);
    DecimalParses(v.patch);
  }

  /** The last dotted part of a printed version starts with a digit or comes after three. */
  lemma PrintedPartsAreNoWildcard(v: Version)
    ensures var parts := Split(Print(v), '.');
            |parts| >= 3 && (|parts| == 3 ==> LastPart(parts) != "x")
  {
    var tail := PrintTail(v.patch, v.pre, v.build);
    DecimalParses(v.patch);
    DigitsHoldNo(v.major, '.');
    DigitsHoldNo(v.minor, '.');
    CutAt(Decimal(v.minor), '.', tail);
    CutAt(Decimal(v.major), '.', Decimal(v.minor) + ['.'] + tail);
    assert Decimal(v.major) + ['.'] + (Decimal(v.minor) + ['.'] + tail) == Print(v);
    SplitCut(Decimal(v.major), Decimal(v.minor) + ['.'] + tail);
    SplitCut(Decimal(v.minor), tail);
    assert Split(Print(v), '.') == [Decimal(v.major)] + ([Decimal(v.minor)] + Split(tail, '.'));
    LastOfThree(Decimal(v.major), Decimal(v.minor), tail);
    assert tail[0] == Decimal(v.patch)[0];
  }

  lemma LastOfThree(a: string, b: string, tail: string)
    ensures var parts := [a] + ([b] + Split(tail, '.'));
            |parts| >= 3 && (|parts| == 3 ==> LastPart(parts) == tail)
  {
    JoinOfSplit(tail, '.');
  }

  lemma SplitCut(a: string, b: string)
    requires '.' !in a
    ensures Split(a + ['.'] + b, '.') == [a] + Split(b, '.')
  {
    CutAt(a, '.', b);
  }

  /** A pinned version is read back as itself exactly when it holds no `x`. */
  lemma PinnedVersionReadsBack(v: Version)
    requires Valid(v)
    ensures ParseRange(Print(v)) == if 'x' in Print(v) then Invalid else Exact(v)
  {
    PrintedLength(v);
    PrintHoldsNo(v, ' ');
    PrintedPartsAreNoWildcard(v);
    VersionRoundTrip(v);
  }

  // ----- when the reference resolves to its manifest

  /** Another manifest that reads as the same name and version. */
  predicate Alias(a: Manifest, m: Manifest) {
    NameAndVersion(a.name) == NameAndVersion(m.name)
  }

  lemma PinCandidates(a: Manifest, m: Manifest)
    requires WellFormed(m.name) && '+' !in m.name && '+' !in a.name
    ensures Candidate(a, NameAndVersion(m.name).0, Equals(VersionOf(m))) <==> Alias(a, m)
  {
    WellFormedPrints(m.name);
    PrecedenceIsTotal(VersionOf(a), VersionOf(m), VersionOf(a));
    NoBuild(a.name);
    assert VersionOf(a) == VersionOf(a).(build := []) && VersionOf(m) == VersionOf(m).(build := []);
  }

  lemma NoBuild(s: string)
    requires '+' !in s
    ensures NameAndVersion(s).1.build == []
  {
    if WellFormed(s) {
      WellFormedPrints(s);
    }
  }

  /** Offers to a pin: the aliases, all of them with the pinned version. */
  lemma PinOffers(ms: seq<Manifest>, k: nat, j: nat)
    requires OneNamespace(ms) && k < |ms| && j < |ms| && WellFormed(ms[k].name)
    ensures var vs := Offers(ms, NameAndVersion(ms[k].name).0, Equals(VersionOf(ms[k])));
            && (vs[j].Some? <==> Alias(ms[j], ms[k]))
            && (vs[j].Some? ==> vs[j].value == VersionOf(ms[k]) && Compare(vs[j].value, vs[j].value) == 0)
  {
    PinCandidates(ms[j], ms[k]);
    PrecedenceIsTotal(VersionOf(ms[k]), VersionOf(ms[k]), VersionOf(ms[k]));
  }

  /** Cross-controller pinning: over the manifests of one namespace, the reference written
      for a well-formed manifest resolves to that manifest exactly when its version holds no
      `x` and no alias is listed before it. */
  lemma PinResolvesIff(ms: seq<Manifest>, k: nat)
    requires OneNamespace(ms) && k < |ms| && WellFormed(ms[k].name)
    ensures Resolves(ms, PinOf(ms[k]), k) <==>
            'x' !in PinOf(ms[k]).version && forall j :: 0 <= j < k ==> !Alias(ms[j], ms[k])
  {
    var m := ms[k];
    WellFormedPrints(m.name);
    PinnedVersionReadsBack(VersionOf(m));
    PinWinsIff(ms, k);
  }

  lemma PinWinsIff(ms: seq<Manifest>, k: nat)
    requires OneNamespace(ms) && k < |ms| && WellFormed(ms[k].name)
    ensures Wins(Offers(ms, NameAndVersion(ms[k].name).0, Equals(VersionOf(ms[k]))), k) <==>
            forall j :: 0 <= j < k ==> !Alias(ms[j], ms[k])
  {
    var m := ms[k];
    var vs := Offers(ms, NameAndVersion(m.name).0, Equals(VersionOf(m)));
    forall j | 0 <= j < |vs|
      ensures vs[j].Some? <==> Alias(ms[j], m)
      ensures vs[j].Some? ==> vs[j].value == VersionOf(m)
    {
      PinOffers(ms, k, j);
    }
    FirstOfEquals(vs, VersionOf(m), k);
  }

  /** Among equal offers the first one wins. */
  lemma FirstOfEquals(vs: seq<Option<Version>>, v: Version, k: nat)
    requires k < |vs| && vs[k].Some? && forall j :: 0 <= j < |vs| && vs[j].Some? ==> vs[j].value == v
    ensures Wins(vs, k) <==> forall j :: 0 <= j < k ==> vs[j].None?
  {
    PrecedenceIsTotal(v, v, v);
  }

  /** Aliases are malformed, and only a manifest of version 0.0.0 can have one. */
  lemma AliasesAreMalformed(ms: seq<Manifest>, j: nat, k: nat)
    requires OneNamespace(ms) && j < |ms| && k < |ms| && j != k && WellFormed(ms[k].name) && Alias(ms[j], ms[k])
    ensures !WellFormed(ms[j].name) && VersionOf(ms[k]) == ZERO
  {
    if WellFormed(ms[j].name) {
      WellFormedNamesAreDistinct(ms[j].name, ms[k].name);
    }
  }

  /** So a pin other than 0.0.0 without an `x` survives whatever is added to the namespace,
      in whatever order it is listed. */
  lemma PinSurvives(ms: seq<Manifest>, k: nat)
    requires OneNamespace(ms) && k < |ms| && WellFormed(ms[k].name)
    requires 'x' !in PinOf(ms[k]).version && VersionOf(ms[k]) != ZERO
    ensures Resolves(ms, PinOf(ms[k]), k)
  {
    PinResolvesIff(ms, k);
    forall j | 0 <= j < k
      ensures !Alias(ms[j], ms[k])
    {
      if Alias(ms[j], ms[k]) {
        AliasesAreMalformed(ms, j, k);
      }
    }
  }

  // ----- finding the manifest of a reference

  /** Strings read as an exact version are the printed versions without an `x`. */
  lemma ExactIff(s: string, v: Version)
    ensures ParseRange(s) == Exact(v) <==> Valid(v) && s == Print(v) && 'x' !in s
  {
    if ParseRange(s) == Exact(v) {
      StringRoundTrip(s);
    }
    if Valid(v) && s == Print(v) {
      PinnedVersionReadsBack(v);
    }
  }

  /** The reference is the pin of the listed manifest `k`, and nothing stands in its way. */
  ghost predicate Pins(listing: Option<seq<Manifest>>, ref: ManifestRef, k: nat) {
    && listing.Some? && OneNamespace(listing.value) && k < |listing.value|
    && WellFormed(listing.value[k].name) && ref == PinOf(listing.value[k]) && 'x' !in ref.version
    && forall j :: 0 <= j < k ==> !Alias(listing.value[j], listing.value[k])
  }

  /** No listed manifest of the name compares equal to the version. */
  ghost predicate NoneEqual(ms: seq<Manifest>, name: string, v: Version) {
    forall m :: m in ms && NameAndVersion(m.name).0 == name ==> Compare(NameAndVersion(m.name).1, v) != 0
  }

  /** What an exact reference finds: the manifest it resolves to, or nothing to compare equal. */
  ghost predicate Finds(ms: seq<Manifest>, ref: ManifestRef, r: Option<Manifest>)
    requires ParseRange(ref.version).Exact?
  {
    if r.None? then NoneEqual(ms, ref.name, ParseRange(ref.version).v)
    else exists k: nat :: Resolves(ms, ref, k) && ms[k] == r.value
  }

  lemma PinIsFound(ms: seq<Manifest>, ref: ManifestRef, k: nat, r: Option<Manifest>)
    requires Pins(Some(ms), ref, k) && ParseRange(ref.version).Exact? && Finds(ms, ref, r)
    ensures r == Some(ms[k])
  {
    PinResolvesIff(ms, k);
    var v := ParseRange(ref.version).v;
    SelectedIff(ms, ref.name, Equals(v), k);
    assert Fits(ms[k], ref.name, Equals(v)) && ms[k] in ms;
    if r.Some? {
      var j: nat :| Resolves(ms, ref, j) && ms[j] == r.value;
      SelectedIsUnique(ms, ref.name, Equals(v), j, k);
    }
  }

  /** The lister answers for a namespace, or fails; `library` is what the library's range
      accepts in the forms left to it. */
  method FindManifestByRef(lister: string -> Option<seq<Manifest>>, ref: ManifestRef, library: Version -> bool) returns (r: Option<Manifest>)
    ensures ParseRange(ref.version).Invalid? || lister(ref.namespace).None? ==> r.None?
    ensures ParseRange(ref.version).Exact? && lister(ref.namespace).Some? ==> Finds(lister(ref.namespace).value, ref, r)
    ensures ParseRange(ref.version).Library? && lister(ref.namespace).Some? ==>
              var ms := lister(ref.namespace).value;
              if r.None? then forall m :: m in ms ==> !Fits(m, ref.name, library)
              else exists k: nat :: Selected(ms, ref.name, library, k) && ms[k] == r.value
    ensures forall k: nat :: Pins(lister(ref.namespace), ref, k) ==> r == Some(lister(ref.namespace).value[k])
  {
    var range, listing := ParseRange(ref.version), lister(ref.namespace);
    r := None;
    if !range.Invalid? && listing.Some? {
      var inRange := if range.Exact? then Equals(range.v) else library;
      NothingFitsIff(listing.value, ref.name, inRange);
      r := FindManifestForRange(listing.value, ref.name, inRange);
      if range.Exact? {
        assert r.None? ==> forall m :: m in listing.value ==> !Fits(m, ref.name, inRange);
        assert Finds(listing.value, ref, r);
      }
    }
    forall k: nat | Pins(listing, ref, k)
      ensures r == Some(listing.value[k])
    {
      PinIsExact(listing.value[k], ref);
      PinIsFound(listing.value, ref, k, r);
    }
  }

  lemma PinIsExact(m: Manifest, ref: ManifestRef)
    requires WellFormed(m.name) && ref == PinOf(m) && 'x' !in ref.version
    ensures ParseRange(ref.version).Exact?
  {
    WellFormedPrints(m.name);
    PinnedVersionReadsBack(VersionOf(m));
  }

  const WITH_X := Version(1, 0, 0, [Alpha("x")], [])

  lemma PrintedWithX()
    ensures Print(WITH_X) == "1.0.0-x"
  {
    assert PrintIdents(WITH_X.pre) == ["x"];
  }

  lemma NothingInsideWithX()
    ensures Valid(WITH_X) && 'x' in "1.0.0-x" && NoInnerMatch("1.0.0-x")
  {
    assert !IsDigit("x"[0]) && IdentOk(Alpha("x"));
    var vs := "1.0.0-x";
    assert vs[6] == 'x';
    forall j | 0 <= j < |vs|
      ensures !Matches(vs)[j]
    {
      assert j == 5 ==> vs[j + 1..] == "x";
    }
  }

  lemma RefusedPin(n: string, v: Version, vs: string, m: Manifest)
    requires '\n' !in n && Valid(v) && v.build == [] && vs == Print(v) && NoInnerMatch(vs) && 'x' in vs && m.name == n + ['-'] + vs
    ensures WellFormed(m.name) && ParseRange(PinOf(m).version) == Invalid
  {
    PrintHoldsNo(v, '\n');
    PrintedTail(v);
    VersionRoundTrip(v);
    NamedVersion(n, vs, v, m.name);
    PinnedVersionReadsBack(v);
  }

  /** A pin that misses for good, under any name: version 1.0.0-x holds an `x`. */
  lemma PinWithXIsRefused(n: string, m: Manifest)
    requires '\n' !in n && m.name == n + ['-'] + "1.0.0-x"
    ensures WellFormed(m.name) && ParseRange(PinOf(m).version) == Invalid
  {
    PrintedWithX();
    NothingInsideWithX();
    RefusedPin(n, WITH_X, "1.0.0-x", m);
  }

  /** A pin that misses because of its sibling: under any name, whatever looks like a version
      but does not parse reads as 0.0.0, and shadows that version when listed before it. */
  lemma UnparsedShadowsZero(n: string, ws: string, m: Manifest, alias: Manifest)
    requires '\n' !in n && '+' !in n && '\n' !in ws && '+' !in ws
    requires VersionTail(ws) && NoInnerMatch(ws) && Parse(ws).None?
    requires m.name == n + ['-'] + Print(ZERO) && alias.name == n + ['-'] + ws
    ensures WellFormed(m.name) && OneNamespace([alias, m]) && !Resolves([alias, m], PinOf(m), 1)
  {
    ReleaseNamed(n, ZERO, m.name);
    UnparsedVersion(n, ws, alias.name);
    VersionRoundTrip(ZERO);
    assert m.name[|n| + 1..] == Print(ZERO) && alias.name[|n| + 1..] == ws;
    NoPlusInRelease(ZERO);
    ShadowedPin(m, alias);
  }

  lemma NoPlusInRelease(v: Version)
    requires v.pre == [] && v.build == []
    ensures '+' !in Print(v) && '-' !in Print(v)
  {
    DigitsHoldNo(v.major, '+');
    DigitsHoldNo(v.minor, '+');
    DigitsHoldNo(v.patch, '+');
    DigitsHoldNo(v.major, '-');
    DigitsHoldNo(v.minor, '-');
    DigitsHoldNo(v.patch, '-');
  }

  lemma ReleaseNamed(n: string, v: Version, name: string)
    requires '\n' !in n && Valid(v) && v.pre == [] && v.build == [] && name == n + ['-'] + Print(v)
    ensures WellFormed(name) && NameAndVersion(name) == (n, v)
  {
    NoPlusInRelease(v);
    NoDashNoMatch(Print(v));
    PrintHoldsNo(v, '\n');
    PrintedTail(v);
    VersionRoundTrip(v);
    NamedVersion(n, Print(v), v, name);
  }

  /** A leading zero is enough: 00.0.0 is such a string. */
  lemma DoubleZeroIsUnparsed(major: string, ws: string)
    requires major == "00" && ws == major + ".0.0"
    ensures VersionTail(ws) && NoInnerMatch(ws) && Parse(ws).None?
  {
    DoubleZeroMatches(major, ws, "0", []);
    DoubleZeroDoesNotParse(major, ws, "0");
    NoDashNoMatch(ws);
  }

  lemma DoubleZeroMatches(major: string, ws: string, zero: string, nothing: string)
    requires major == "00" && zero == "0" && nothing == [] && ws == major + ".0.0"
    ensures VersionTail(ws)
  {
    TailOf(major, zero, zero, nothing);
    assert ws == major + (['.'] + (zero + (['.'] + (zero + nothing))));
  }

  lemma DoubleZeroDoesNotParse(major: string, ws: string, zero: string)
    requires major == "00" && zero == "0" && ws == major + ".0.0"
    ensures Parse(ws).None?
  {
    ParseCutsAtDots(major, zero, zero);
    assert ws == major + ['.'] + (zero + ['.'] + zero);
    assert LeadingZero(major);
  }

  lemma ShadowedPin(m: Manifest, alias: Manifest)
    requires WellFormed(m.name) && Alias(alias, m) && '+' !in m.name && '+' !in alias.name && m.name != alias.name
    ensures OneNamespace([alias, m]) && !Resolves([alias, m], PinOf(m), 1)
  {
    PairOfNames(m, alias);
    PinResolvesIff([alias, m], 1);
    assert Alias([alias, m][0], [alias, m][1]);
  }

  lemma PairOfNames(m: Manifest, alias: Manifest)
    requires '+' !in m.name && '+' !in alias.name && m.name != alias.name
    ensures OneNamespace([alias, m])
  {
  }

  lemma NamedVersion(n: string, vs: string, v: Version, name: string)
    requires '\n' !in n && '\n' !in vs && name == n + ['-'] + vs && VersionTail(vs) && NoInnerMatch(vs) && Parse(vs) == Some(v)
    ensures WellFormed(name) && NameAndVersion(name) == (n, v)
  {
    CutFallsBetween(n, vs);
    assert name[|n| + 1..] == vs && name[..|n|] == n;
  }

  lemma UnparsedVersion(n: string, vs: string, name: string)
    requires '\n' !in n && '\n' !in vs && name == n + ['-'] + vs && VersionTail(vs) && NoInnerMatch(vs) && Parse(vs).None?
    ensures NameAndVersion(name) == (n, ZERO)
  {
    CutFallsBetween(n, vs);
    NameAtCut(n, vs, name);
  }
}
