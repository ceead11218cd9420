/** Semantic versions as the semver library parses, prints and compares them. */
module Semver {
  import opened Cluster
  import opened Strings

  datatype Ident = Num(n: nat) | Alpha(s: string)

  datatype Version = Version(major: nat, minor: nat, patch: nat, pre: seq<Ident>, build: seq<string>)

  const ZERO := Version(0, 0, 0, [], [])

  /** Numbers are parsed into 64 bits. */
  const LIMIT: nat := 0x1_0000_0000_0000_0000

  // ----- characters and digits

  predicate IsDigit(c: char) {
    '0' <= c <= '9'
  }

  predicate IsAlnum(c: char) {
    IsDigit(c) || 'a' <= c <= 'z' || 'A' <= c <= 'Z' || c == '-'
  }

  predicate AllDigits(s: string) {
    forall i :: 0 <= i < |s| ==> IsDigit(s[i])
  }

  predicate AllAlnum(s: string) {
    forall i :: 0 <= i < |s| ==> IsAlnum(s[i])
  }

  predicate LeadingZero(s: string) {
    |s| > 1 && s[0] == '0'
  }

  function DigitChar(d: nat): char
    requires d < 10
  {
    (d as char - 0 as char) + '0'
  }

  function DigitValue(c: char): nat
    requires IsDigit(c)
  {
    c as int - '0' as int
  }

  function Decimal(n: nat): string {
    if n < 10 then [DigitChar(n)] else Decimal(n / 10) + [DigitChar(n % 10)]
  }

  function DecimalValue(s: string): nat
    requires AllDigits(s)
  {
    if s == [] then 0 else 10 * DecimalValue(s[..|s| - 1]) + DigitValue(s[|s| - 1])
  }

  /** Digits only, no leading zero, and small enough. */
  function ParseNumber(s: string): Option<nat> {
    if s != [] && AllDigits(s) && !LeadingZero(s) && DecimalValue(s) < LIMIT then Some(DecimalValue(s)) else None
  }

  // ----- splitting

  /** The first position of `c`, or the length. */
  function Index(s: string, c: char): (i: nat)
    ensures i <= |s| && (i < |s| ==> s[i] == c) && c !in s[..i]
  {
    if s == [] || s[0] == c then 0 else 1 + Index(s[1..], c)
  }

  function Split(s: string, c: char): (parts: seq<string>)
    ensures parts != []
    decreases |s|
  {
    var i := Index(s, c);
    if i == |s| then [s] else [s[..i]] + Split(s[i + 1..], c)
  }

  function Join(parts: seq<string>, c: char): string {
    if parts == [] then [] else if |parts| == 1 then parts[0] else parts[0] + [c] + Join(parts[1..], c)
  }

  // ----- identifiers

  function ParseIdent(s: string): Option<Ident> {
    if s != [] && AllDigits(s) then
      var n := ParseNumber(s);
      if n.Some? then Some(Num(n.value)) else None
    else if s != [] && AllAlnum(s) then Some(Alpha(s))
    else None
  }

  function ParseIdents(parts: seq<string>): Option<seq<Ident>> {
    if parts == [] then Some([])
    else
      var first, rest := ParseIdent(parts[0]), ParseIdents(parts[1..]);
      if first.Some? && rest.Some? then Some([first.value] + rest.value) else None
  }

  predicate BuildOk(parts: seq<string>) {
    forall i :: 0 <= i < |parts| ==> parts[i] != [] && AllAlnum(parts[i])
  }

  function PrintIdent(x: Ident): string {
    match x
    case Num(n) => Decimal(n)
    case Alpha(s) => s
  }

  function PrintIdents(xs: seq<Ident>): seq<string> {
    seq(|xs|, i requires 0 <= i < |xs| => PrintIdent(xs[i]))
  }

  // ----- versions

  /** The patch number with what follows it, in the order the library cuts it up: build
      metadata from the first plus sign, then pre-release from the first dash before it. */
  function ParsePatch(s: string): Option<(nat, seq<Ident>, seq<string>)> {
    var b := Index(s, '+');
    var build := if b < |s| then Split(s[b + 1..], '.') else [];
    var head := s[..b];
    var p := Index(head, '-');
    var patch := ParseNumber(head[..p]);
    var pre := if p < |head| then ParseIdents(Split(head[p + 1..], '.')) else Some([]);
    if patch.Some? && pre.Some? && BuildOk(build) then Some((patch.value, pre.value, build)) else None
  }

  function Parse(s: string): Option<Version> {
    var i := Index(s, '.');
    if i == |s| then None
    else
      var r := s[i + 1..];
      var j := Index(r, '.');
      if j == |r| then None
      else
        var major, minor, rest := ParseNumber(s[..i]), ParseNumber(r[..j]), ParsePatch(r[j + 1..]);
        if major.Some? && minor.Some? && rest.Some?
        then Some(Version(major.value, minor.value, rest.value.0, rest.value.1, rest.value.2)) else None
  }

  /** A list of identifiers after its mark, or nothing. */
  function Suffix(mark: char, parts: seq<string>): string {
    if parts == [] then [] else [mark] + Join(parts, '.')
  }

  function PrintTail(patch: nat, pre: seq<Ident>, build: seq<string>): string {
    (Decimal(patch) + Suffix('-', PrintIdents(pre))) + Suffix('+', build)
  }

  function Print(v: Version): string {
    Decimal(v.major) + ['.'] + (Decimal(v.minor) + ['.'] + PrintTail(v.patch, v.pre, v.build))
  }

  /** What a parsed version can be. */
  predicate IdentOk(x: Ident) {
    match x
    case Num(n) => n < LIMIT
    case Alpha(s) => s != [] && AllAlnum(s) && !AllDigits(s)
  }

  predicate Valid(v: Version) {
    && v.major < LIMIT && v.minor < LIMIT && v.patch < LIMIT
    && (forall i :: 0 <= i < |v.pre| ==> IdentOk(v.pre[i]))
    && BuildOk(v.build)
  }

  // ----- precedence, section 11 of Semantic Versioning 2.0.0

  function CompareNat(a: nat, b: nat): int {
    if a < b then -1 else if a > b then 1 else 0
  }

  function CompareIdent(a: Ident, b: Ident): int {
    match (a, b)
    case (Num(m), Num(n)) => CompareNat(m, n)
    case (Num(_), Alpha(_)) => -1
    case (Alpha(_), Num(_)) => 1
    case (Alpha(s), Alpha(t)) => if s == t then 0 else if Before(t, s) then 1 else -1
  }

  function CompareIdents(a: seq<Ident>, b: seq<Ident>): int {
    if a == [] && b == [] then 0
    else if a == [] then -1
    else if b == [] then 1
    else
      var c := CompareIdent(a[0], b[0]);
      if c != 0 then c else CompareIdents(a[1..], b[1..])
  }

  /** A release has precedence over its pre-releases; build metadata has no say. */
  function Compare(a: Version, b: Version): int {
    if a.major != b.major then CompareNat(a.major, b.major)
    else if a.minor != b.minor then CompareNat(a.minor, b.minor)
    else if a.patch != b.patch then CompareNat(a.patch, b.patch)
    else if a.pre == [] && b.pre == [] then 0
    else if a.pre == [] then 1
    else if b.pre == [] then -1
    else CompareIdents(a.pre, b.pre)
  }

  lemma IdentsAreOrdered(a: Ident, b: Ident, c: Ident)
    ensures -1 <= CompareIdent(a, b) <= 1 && CompareIdent(b, a) == -CompareIdent(a, b)
    ensures CompareIdent(a, b) == 0 <==> a == b
    ensures CompareIdent(a, b) <= 0 && CompareIdent(b, c) <= 0 ==>
              CompareIdent(a, c) <= 0 && (CompareIdent(a, c) == 0 ==> a == b == c)
  {
    if a.Alpha? && b.Alpha? {
      BeforeIsTotal(a.s, b.s);
      if c.Alpha? {
        BeforeIsTotal(b.s, c.s);
        BeforeIsTotal(a.s, c.s);
        if Before(a.s, b.s) && Before(b.s, c.s) {
          BeforeIsTransitive(a.s, b.s, c.s);
        }
      }
    }
  }

  lemma {:induction false} IdentListsAreOrdered(a: seq<Ident>, b: seq<Ident>, c: seq<Ident>)
    ensures -1 <= CompareIdents(a, b) <= 1 && CompareIdents(b, a) == -CompareIdents(a, b)
    ensures CompareIdents(a, b) == 0 <==> a == b
    ensures CompareIdents(a, b) <= 0 && CompareIdents(b, c) <= 0 ==>
              CompareIdents(a, c) <= 0 && (CompareIdents(a, c) == 0 ==> a == b == c)
  {
    if a != [] && b != [] {
      IdentsAreOrdered(a[0], b[0], if c == [] then a[0] else c[0]);
      IdentListsAreOrdered(a[1..], b[1..], if c == [] then a[1..] else c[1..]);
      assert a == [a[0]] + a[1..] && b == [b[0]] + b[1..];
      assert c != [] ==> c == [c[0]] + c[1..];
    }
  }

  /** Precedence is a total order, up to build metadata. */
  lemma PrecedenceIsTotal(a: Version, b: Version, c: Version)
    ensures -1 <= Compare(a, b) <= 1 && Compare(b, a) == -Compare(a, b)
    ensures Compare(a, b) == 0 <==> a.(build := []) == b.(build := [])
    ensures Compare(a, b) <= 0 && Compare(b, c) <= 0 ==>
              Compare(a, c) <= 0 && (Compare(a, c) == 0 ==> Compare(a, b) == 0 && Compare(b, c) == 0)
  {
    IdentListsAreOrdered(a.pre, b.pre, c.pre);
    IdentListsAreOrdered(b.pre, c.pre, a.pre);
  }

  // ----- what precedence means

  /** Numbers compare as numbers, words as text, and numbers are below words. */
  predicate IdentLower(a: Ident, b: Ident) {
    match (a, b)
    case (Num(m), Num(n)) => m < n
    case (Num(_), Alpha(_)) => true
    case (Alpha(_), Num(_)) => false
    case (Alpha(s), Alpha(t)) => Before(s, t)
  }

  /** The lists agree up to `i`, where the first one ends or has the lower identifier. */
  predicate ListLowerAt(a: seq<Ident>, b: seq<Ident>, i: nat) {
    i <= |a| && i < |b| && a[..i] == b[..i] && (i == |a| || IdentLower(a[i], b[i]))
  }

  ghost predicate ListLower(a: seq<Ident>, b: seq<Ident>) {
    exists i: nat :: ListLowerAt(a, b, i)
  }

  /** The three numbers decide from left to right. */
  predicate CoreLower(a: Version, b: Version) {
    a.major < b.major || (a.major == b.major && (a.minor < b.minor || (a.minor == b.minor && a.patch < b.patch)))
  }

  predicate SameCore(a: Version, b: Version) {
    a.major == b.major && a.minor == b.minor && a.patch == b.patch
  }

  lemma IdentLowerIff(a: Ident, b: Ident)
    ensures CompareIdent(a, b) < 0 <==> IdentLower(a, b)
  {
    if a.Alpha? && b.Alpha? {
      BeforeIsTotal(a.s, b.s);
    }
  }

  lemma ListLowerShifts(a: seq<Ident>, b: seq<Ident>)
    requires a != [] && b != [] && a[0] == b[0]
    ensures ListLower(a, b) <==> ListLower(a[1..], b[1..])
  {
    IdentLowerIff(a[0], b[0]);
    IdentsAreOrdered(a[0], b[0], a[0]);
    forall i: nat | ListLowerAt(a, b, i)
      ensures ListLower(a[1..], b[1..])
    {
      var j: nat := i - 1;
      assert a[1..][..j] == a[..i][1..] && b[1..][..j] == b[..i][1..];
      assert ListLowerAt(a[1..], b[1..], j);
    }
    forall i: nat | ListLowerAt(a[1..], b[1..], i)
      ensures ListLower(a, b)
    {
      assert a[..i + 1] == [a[0]] + a[1..][..i] && b[..i + 1] == [b[0]] + b[1..][..i];
      assert ListLowerAt(a, b, i + 1);
    }
  }

  lemma {:induction false} ListLowerIff(a: seq<Ident>, b: seq<Ident>)
    ensures CompareIdents(a, b) < 0 <==> ListLower(a, b)
  {
    if a == [] || b == [] {
      assert a == [] && b != [] ==> ListLowerAt(a, b, 0);
    } else {
      IdentLowerIff(a[0], b[0]);
      IdentsAreOrdered(a[0], b[0], a[0]);
      if a[0] == b[0] {
        ListLowerShifts(a, b);
        ListLowerIff(a[1..], b[1..]);
      } else {
        FirstDecides(a, b);
      }
    }
  }

  lemma FirstDecides(a: seq<Ident>, b: seq<Ident>)
    requires a != [] && b != [] && a[0] != b[0]
    ensures ListLower(a, b) <==> IdentLower(a[0], b[0])
  {
    if IdentLower(a[0], b[0]) {
      assert ListLowerAt(a, b, 0);
    }
    forall i: nat | ListLowerAt(a, b, i)
      ensures i == 0
    {
      PrefixesShareHeads(a, b, i);
    }
  }

  lemma PrefixesShareHeads(a: seq<Ident>, b: seq<Ident>, i: nat)
    ensures 0 < i <= |a| && i <= |b| && a[..i] == b[..i] ==> a[0] == b[0]
  {
    if 0 < i <= |a| && i <= |b| {
      assert a[..i][0] == a[0] && b[..i][0] == b[0];
    }
  }

  /** Precedence is that of section 11: first the three numbers, then a pre-release is below
      its release, then the first difference of the identifiers decides. */
  lemma PrecedenceMeans(a: Version, b: Version)
    ensures Compare(a, b) < 0 <==>
            CoreLower(a, b) || (SameCore(a, b) && a.pre != [] && (b.pre == [] || ListLower(a.pre, b.pre)))
  {
    ListLowerIff(a.pre, b.pre);
  }
}
