/** The name and version inside a manifest's resource name. */
module ManifestName {
  import opened Cluster
  import opened Semver
  import opened SemverText

  /** The number of leading digits. */
  function DigitRun(s: string): nat {
    if s == [] || !IsDigit(s[0]) then 0 else 1 + DigitRun(s[1..])
  }

  lemma {:induction false} DigitRunStops(s: string)
    ensures DigitRun(s) <= |s| && AllDigits(s[..DigitRun(s)])
    ensures DigitRun(s) < |s| ==> !IsDigit(s[DigitRun(s)])
  {
    if s != [] && IsDigit(s[0]) {
      DigitRunStops(s[1..]);
      assert s[..DigitRun(s)] == [s[0]] + s[1..][..DigitRun(s[1..])];
    }
  }

  /** A run of digits and then a dot; what follows it, if so. */
  function AfterDigitsAndDot(s: string): Option<string> {
    var n := DigitRun(s);
    if 0 < n < |s| && s[n] == '.' then Some(s[n + 1..]) else None
  }

  /** The second group of the expression matches all of `s`: three dotted numbers, and then
      nothing or a dash and anything. */
  predicate VersionTail(s: string) {
    var r := AfterDigitsAndDot(s);
    r.Some? &&
    var t := AfterDigitsAndDot(r.value);
    t.Some? &&
    var n := DigitRun(t.value);
    0 < n && (n >= |t.value| || t.value[n] == '-')
  }

  predicate DashMatches(s: string, i: nat) {
    i < |s| && s[i] == '-' && VersionTail(s[i + 1..])
  }

  /** For every position, whether the rest matches from a dash there. */
  function Matches(s: string): seq<bool> {
    seq(|s|, i requires 0 <= i < |s| => DashMatches(s, i))
  }

  function LastTrue(t: seq<bool>): (r: Option<nat>)
    ensures r.None? <==> true !in t
    ensures r.Some? ==> r.value < |t| && t[r.value] && true !in t[r.value + 1..]
  {
    if t == [] then None
    else
      var n := |t| - 1;
      var r := LastTrue(t[..n]);
      assert r.Some? ==> t[r.value + 1..] == t[..n][r.value + 1..] + [t[n]];
      if t[n] then Some(n) else r
  }

  /** The greedy first group reaches to the last dash that lets the rest match. A dot in
      the expression matches anything but a newline. */
  function Cut(s: string): (r: Option<nat>)
    ensures r.Some? ==> r.value < |s| && s[r.value] == '-'
  {
    if '\n' in s then None else LastTrue(Matches(s))
  }

  function VersionAfter(s: string, i: nat): Option<Version>
    requires i < |s|
  {
    Parse(s[i + 1..])
  }

  /** A version that does not parse counts as 0.0.0, and so does a name without one. */
  function NameAndVersion(s: string): (string, Version) {
    var i := Cut(s);
    if i.None? then ("", ZERO)
    else (s[..i.value], if VersionAfter(s, i.value).Some? then VersionAfter(s, i.value).value else ZERO)
  }

  /** The name carries a version that parses. */
  predicate WellFormed(s: string) {
    Cut(s).Some? && VersionAfter(s, Cut(s).value).Some?
  }

  // ----- the expression, spelled out

  ghost predicate ThreeNumbers(s: string, a: string, b: string, c: string, rest: string) {
    && a != [] && AllDigits(a) && b != [] && AllDigits(b) && c != [] && AllDigits(c)
    && s == a + (['.'] + (b + (['.'] + (c + rest)))) && (rest == [] || rest[0] == '-')
  }

  lemma {:induction false} DigitRunOf(a: string, rest: string)
    requires AllDigits(a) && (rest == [] || !IsDigit(rest[0]))
    ensures DigitRun(a + rest) == |a|
  {
    if a == [] {
      assert a + rest == rest;
    } else {
      DigitRunOf(a[1..], rest);
      assert (a + rest)[1..] == a[1..] + rest;
    }
  }

  lemma DotFollows(a: string, rest: string)
    requires a != [] && AllDigits(a)
    ensures AfterDigitsAndDot(a + (['.'] + rest)) == Some(rest)
  {
    DigitRunOf(a, ['.'] + rest);
    assert (a + (['.'] + rest))[|a| + 1..] == rest;
  }

  lemma DigitsAndDot(s: string)
    requires AfterDigitsAndDot(s).Some?
    ensures var n := DigitRun(s);
            && 0 < n <= |s| && AllDigits(s[..n]) && s == s[..n] + (['.'] + AfterDigitsAndDot(s).value)
  {
    DigitRunStops(s);
    CutBack(s, DigitRun(s), '.');
  }

  lemma TailParts(s: string) returns (r: string, t: string)
    requires VersionTail(s)
    ensures AfterDigitsAndDot(s) == Some(r) && AfterDigitsAndDot(r) == Some(t)
    ensures 0 < DigitRun(t) && (DigitRun(t) >= |t| || t[DigitRun(t)] == '-')
  {
    r := AfterDigitsAndDot(s).value;
    t := AfterDigitsAndDot(r).value;
  }

  lemma FirstNumber(s: string, r: string) returns (a: string)
    requires AfterDigitsAndDot(s) == Some(r)
    ensures a != [] && AllDigits(a) && s == a + (['.'] + r)
  {
    DigitsAndDot(s);
    a := s[..DigitRun(s)];
  }

  lemma LastNumber(t: string) returns (c: string, rest: string)
    requires 0 < DigitRun(t) && (DigitRun(t) >= |t| || t[DigitRun(t)] == '-')
    ensures c != [] && AllDigits(c) && t == c + rest && (rest == [] || rest[0] == '-')
  {
    DigitRunStops(t);
    c, rest := t[..DigitRun(t)], t[DigitRun(t)..];
  }

  lemma TailSpellsOut(s: string)
    requires VersionTail(s)
    ensures exists a, b, c, rest :: ThreeNumbers(s, a, b, c, rest)
  {
    var r, t := TailParts(s);
    var a := FirstNumber(s, r);
    var b := FirstNumber(r, t);
    var c, rest := LastNumber(t);
    Spelled(s, a, r, b, t, c, rest);
  }

  lemma Spelled(s: string, a: string, r: string, b: string, t: string, c: string, rest: string)
    requires a != [] && AllDigits(a) && b != [] && AllDigits(b) && c != [] && AllDigits(c)
    requires s == a + (['.'] + r) && r == b + (['.'] + t) && t == c + rest && (rest == [] || rest[0] == '-')
    ensures ThreeNumbers(s, a, b, c, rest)
  {
  }

  /** The computed test is the expression's second group. */
  lemma VersionTailIff(s: string)
    ensures VersionTail(s) <==> exists a, b, c, rest :: ThreeNumbers(s, a, b, c, rest)
  {
    if VersionTail(s) {
      TailSpellsOut(s);
    }
    forall a, b, c, rest | ThreeNumbers(s, a, b, c, rest)
      ensures VersionTail(s)
    {
      TailOf(a, b, c, rest);
    }
  }

  // ----- the round trip

  /** No dash inside the version starts another version. */
  ghost predicate NoInnerMatch(vs: string) {
    true !in Matches(vs)
  }

  lemma TailOf(a: string, b: string, c: string, suffix: string)
    requires a != [] && AllDigits(a) && b != [] && AllDigits(b) && c != [] && AllDigits(c)
    requires suffix == [] || !IsDigit(suffix[0])
    ensures VersionTail(a + (['.'] + (b + (['.'] + (c + suffix))))) <==> suffix == [] || suffix[0] == '-'
  {
    DotFollows(a, b + (['.'] + (c + suffix)));
    DotFollows(b, c + suffix);
    DigitRunOf(c, suffix);
  }

  lemma Assoc(a: string, b: string, c: string)
    ensures (a + b) + c == a + (b + c)
  {
  }

  lemma PrintIsNumbersAndSuffix(v: Version)
    ensures var suffix := Suffix('-', PrintIdents(v.pre)) + Suffix('+', v.build);
            && Print(v) == Decimal(v.major) + (['.'] + (Decimal(v.minor) + (['.'] + (Decimal(v.patch) + suffix))))
            && (suffix == [] <==> v.pre == [] && v.build == [])
            && (suffix != [] ==> suffix[0] == if v.pre != [] then '-' else '+')
  {
    var pre, build := Suffix('-', PrintIdents(v.pre)), Suffix('+', v.build);
    assert |v.pre| == |PrintIdents(v.pre)|;
    Assoc(Decimal(v.patch), pre, build);
    var tail := PrintTail(v.patch, v.pre, v.build);
    Assoc(Decimal(v.minor), ['.'], tail);
    Assoc(Decimal(v.major), ['.'], Decimal(v.minor) + ['.'] + tail);
  }

  lemma PrintedTail(v: Version)
    ensures VersionTail(Print(v)) <==> v.build == [] || v.pre != []
  {
    DecimalParses(v.major);
    DecimalParses(v.minor);
    DecimalParses(v.patch);
    PrintIsNumbersAndSuffix(v);
    TailOf(Decimal(v.major), Decimal(v.minor), Decimal(v.patch), Suffix('-', PrintIdents(v.pre)) + Suffix('+', v.build));
  }

  lemma PrintHoldsNo(v: Version, c: char)
    requires Valid(v) && !IsAlnum(c) && c != '.' && c != '+'
    ensures c !in Print(v)
  {
    DigitsHoldNo(v.major, c);
    DigitsHoldNo(v.minor, c);
    DigitsHoldNo(v.patch, c);
    IdentsRoundTrip(v.pre);
    JoinHas(PrintIdents(v.pre), c);
    JoinHas(v.build, c);
  }

  lemma DashShifts(n: string, vs: string, s: string, j: nat)
    requires s == n + ['-'] + vs && j < |vs|
    ensures DashMatches(s, |n| + 1 + j) <==> DashMatches(vs, j)
  {
    assert s[|n| + 1 + j + 1..] == vs[j + 1..];
  }

  lemma MatchesShift(n: string, vs: string)
    ensures var s := n + ['-'] + vs;
            Matches(s)[|n| + 1..] == Matches(vs) && (Matches(s)[|n|] <==> VersionTail(vs))
  {
    var s := n + ['-'] + vs;
    forall j | 0 <= j < |vs|
      ensures Matches(s)[|n| + 1..][j] == Matches(vs)[j]
    {
      DashShifts(n, vs, s, j);
    }
    assert s[|n| + 1..] == vs;
    assert Matches(s)[|n|] == DashMatches(s, |n|);
  }

  lemma InTail(t: seq<bool>, i: nat, j: nat)
    ensures i < j < |t| && t[j] ==> true in t[i + 1..]
  {
    if i < j < |t| {
      assert t[i + 1..][j - i - 1] == t[j];
    }
  }

  lemma LastTrueIs(t: seq<bool>, k: nat)
    requires k < |t|
    ensures LastTrue(t) == Some(k) <==> t[k] && true !in t[k + 1..]
  {
    var r := LastTrue(t);
    if t[k] && r.Some? {
      InTail(t, r.value, k);
      InTail(t, k, r.value);
    }
  }

  /** The cut falls between name and version exactly when the version matches and no dash
      inside it does. */
  lemma CutFallsBetween(n: string, vs: string)
    requires '\n' !in n && '\n' !in vs
    ensures Cut(n + ['-'] + vs) == Some(|n|) <==> VersionTail(vs) && NoInnerMatch(vs)
  {
    MatchesShift(n, vs);
    LastTrueIs(Matches(n + ['-'] + vs), |n|);
  }

  /** Naming round trip: a newline-free name, which may hold dashes and versions itself, and
      a version come back exactly when no dash inside the version starts another version,
      and build metadata comes with a pre-release. */
  lemma NameRoundTripIff(n: string, v: Version)
    requires '\n' !in n && Valid(v)
    ensures NameAndVersion(n + ['-'] + Print(v)) == (n, v) <==>
            (v.build == [] || v.pre != []) && NoInnerMatch(Print(v))
  {
    var vs := Print(v);
    PrintedTail(v);
    PrintHoldsNo(v, '\n');
    CutFallsBetween(n, vs);
    VersionRoundTrip(v);
    CutDecides(n, vs, v);
  }

  lemma CutDecides(n: string, vs: string, v: Version)
    requires '\n' !in n && '\n' !in vs && Parse(vs) == Some(v) && (VersionTail(vs) || v != ZERO)
    ensures NameAndVersion(n + ['-'] + vs) == (n, v) <==> Cut(n + ['-'] + vs) == Some(|n|)
  {
    var s := n + ['-'] + vs;
    var cut := Cut(s);
    if cut == Some(|n|) {
      NameAtCut(n, vs, s);
    } else if cut.None? {
      MatchesShift(n, vs);
      assert !Matches(s)[|n|];
    } else {
      assert |s[..cut.value]| != |n|;
    }
  }

  lemma NameAtCut(n: string, vs: string, s: string)
    requires s == n + ['-'] + vs && Cut(s) == Some(|n|)
    ensures NameAndVersion(s) == (n, if Parse(vs).Some? then Parse(vs).value else ZERO)
  {
    assert s[..|n|] == n && s[|n| + 1..] == vs;
  }

  lemma NoDashNoMatch(vs: string)
    requires '-' !in vs
    ensures NoInnerMatch(vs)
  {
  }

  /** Every release qualifies. */
  lemma ReleasesRoundTrip(n: string, v: Version)
    requires '\n' !in n && Valid(v) && v.pre == [] && v.build == []
    ensures NameAndVersion(n + ['-'] + Print(v)) == (n, v)
  {
    DigitsHoldNo(v.major, '-');
    DigitsHoldNo(v.minor, '-');
    DigitsHoldNo(v.patch, '-');
    assert '-' !in Print(v);
    NoDashNoMatch(Print(v));
    NameRoundTripIff(n, v);
  }

  /** A version that holds another after a dash does not return, under any name. */
  lemma InnerVersionIsTaken(n: string, v: Version)
    requires '\n' !in n && Valid(v) && !NoInnerMatch(Print(v))
    ensures NameAndVersion(n + ['-'] + Print(v)) != (n, v)
  {
    NameRoundTripIff(n, v);
  }

  /** Nor does one whose build metadata stands alone. */
  lemma BuildAloneIsLost(n: string, v: Version)
    requires '\n' !in n && Valid(v) && v.pre == [] && v.build != []
    ensures NameAndVersion(n + ['-'] + Print(v)) != (n, v)
  {
    NameRoundTripIff(n, v);
  }

  /** 1.0.0-1.2.3 is of the first kind. */
  lemma InnerVersionShows(v: Version)
    requires v == Version(1, 0, 0, [Num(1), Num(2), Num(3)], [])
    ensures !NoInnerMatch(Print(v))
  {
    PrintsInner(v);
    NumbersMatch("1", "2", "3", "1.2.3");
    TailMatches("1.0.0", "1.2.3", Print(v));
  }

  lemma InnerIsValid(v: Version)
    requires v == Version(1, 0, 0, [Num(1), Num(2), Num(3)], [])
    ensures Valid(v)
  {
    assert IdentOk(v.pre[0]) && IdentOk(v.pre[1]) && IdentOk(v.pre[2]);
  }

  lemma PrintsThree(pre: seq<Ident>)
    requires pre == [Num(1), Num(2), Num(3)]
    ensures PrintIdents(pre) == ["1", "2", "3"]
  {
    assert PrintIdent(pre[0]) == "1" && PrintIdent(pre[1]) == "2" && PrintIdent(pre[2]) == "3";
  }

  lemma PrintsInner(v: Version)
    requires v == Version(1, 0, 0, [Num(1), Num(2), Num(3)], [])
    ensures Print(v) == "1.0.0" + ['-'] + "1.2.3"
  {
    PrintsThree(v.pre);
    JoinsThree("1", "2", "3");
    assert Decimal(0) == "0" && Decimal(1) == "1";
    assert PrintIdents(v.pre) == ["1", "2", "3"];
    assert Join(["1", "2", "3"], '.') == "1.2.3";
    assert Suffix('-', PrintIdents(v.pre)) == ['-'] + "1.2.3";
    assert Suffix('+', v.build) == [];
  }

  lemma JoinsThree(a: string, b: string, c: string)
    ensures Join([a, b, c], '.') == a + ['.'] + (b + ['.'] + c)
  {
    assert [a, b, c][1..] == [b, c] && [b, c][1..] == [c];
    assert Join([c], '.') == c;
    assert Join([b, c], '.') == b + ['.'] + c;
  }

  lemma NumbersMatch(a: string, b: string, c: string, s: string)
    requires a != [] && AllDigits(a) && b != [] && AllDigits(b) && c != [] && AllDigits(c)
    requires s == a + ['.'] + b + ['.'] + c
    ensures VersionTail(s)
  {
    TailOf(a, b, c, []);
    assert s == a + (['.'] + (b + (['.'] + (c + []))));
  }

  lemma TailMatches(head: string, tail: string, s: string)
    requires s == head + ['-'] + tail && VersionTail(tail)
    ensures !NoInnerMatch(s)
  {
    MatchesShift(head, tail);
    assert Matches(s)[|head|];
  }

  /** The other way round: a well-formed name is its parsed name, a dash and its printed
      version, so no two well-formed names share name and version. */
  lemma WellFormedPrints(s: string)
    requires WellFormed(s)
    ensures var (n, v) := NameAndVersion(s);
            s == n + ['-'] + Print(v) && Valid(v) && ('+' !in s ==> v.build == [])
  {
    AfterCutPrints(s, Cut(s).value);
  }

  lemma AfterCutPrints(s: string, i: nat)
    requires i < |s| && s[i] == '-' && VersionAfter(s, i).Some?
    ensures var v := VersionAfter(s, i).value;
            s == s[..i] + ['-'] + Print(v) && Valid(v) && ('+' !in s ==> v.build == [])
  {
    StringRoundTrip(s[i + 1..]);
    CutApart(s, i);
    BuildShows(VersionAfter(s, i).value);
    assert forall c :: c in s[i + 1..] ==> c in s;
  }

  lemma CutApart(s: string, i: nat)
    requires i < |s| && s[i] == '-'
    ensures s == s[..i] + ['-'] + s[i + 1..]
  {
  }

  lemma BuildShows(v: Version)
    ensures v.build != [] ==> '+' in Print(v)
  {
    if v.build != [] {
      var head := Decimal(v.patch) + Suffix('-', PrintIdents(v.pre));
      assert PrintTail(v.patch, v.pre, v.build)[|head|] == '+';
      assert '+' in PrintTail(v.patch, v.pre, v.build);
    }
  }

  lemma WellFormedNamesAreDistinct(s: string, t: string)
    requires WellFormed(s) && WellFormed(t) && NameAndVersion(s) == NameAndVersion(t)
    ensures s == t
  {
    WellFormedPrints(s);
    WellFormedPrints(t);
  }

  /** A name without a version is no name: nothing matches, or a newline stands in the way. */
  lemma NoVersionNoName(s: string)
    requires '\n' in s || forall i :: 0 <= i < |s| && s[i] == '-' ==> !VersionTail(s[i + 1..])
    ensures NameAndVersion(s) == ("", ZERO)
  {
    assert '\n' !in s ==> forall i :: 0 <= i < |s| ==> !Matches(s)[i];
  }

  /** Otherwise the name ends at the last dash a version follows, and a version that does not
      parse counts as 0.0.0. */
  lemma NameEndsAtLast(s: string, i: nat)
    requires '\n' !in s && i < |s| && s[i] == '-' && VersionTail(s[i + 1..])
    requires forall j :: i < j < |s| && s[j] == '-' ==> !VersionTail(s[j + 1..])
    ensures NameAndVersion(s) == (s[..i], if Parse(s[i + 1..]).Some? then Parse(s[i + 1..]).value else Version(0, 0, 0, [], []))
  {
    var t := Matches(s);
    assert t[i] && forall j :: i < j < |s| ==> !t[j];
    LastTrueIs(t, i);
  }
}
