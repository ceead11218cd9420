/** Printing and parsing versions undo each other. */
module SemverText {
  import opened Cluster
  import opened Semver

  // ----- numbers

  lemma {:induction false} DecimalParses(n: nat)
    ensures Decimal(n) != [] && AllDigits(Decimal(n)) && DecimalValue(Decimal(n)) == n
    ensures n > 0 ==> Decimal(n)[0] != '0'
    ensures !LeadingZero(Decimal(n))
  {
    if n >= 10 {
      DecimalParses(n / 10);
      assert Decimal(n)[..|Decimal(n)| - 1] == Decimal(n / 10);
    }
  }

  lemma {:induction false} ValuePrints(s: string)
    requires s != [] && AllDigits(s) && !LeadingZero(s)
    ensures Decimal(DecimalValue(s)) == s
    ensures s[0] != '0' ==> DecimalValue(s) > 0
  {
    var n := |s| - 1;
    var d := DigitValue(s[n]);
    assert DigitChar(d) == s[n];
    if n == 0 {
      assert DecimalValue(s[..0]) == 0;
    } else {
      ValuePrints(s[..n]);
      var v := DecimalValue(s[..n]);
      assert v > 0 && (10 * v + d) / 10 == v && (10 * v + d) % 10 == d;
      assert s == s[..n] + [s[n]];
    }
  }

  lemma NumbersRoundTrip(n: nat)
    requires n < LIMIT
    ensures ParseNumber(Decimal(n)) == Some(n)
  {
    DecimalParses(n);
  }

  // ----- splitting and joining

  lemma {:induction false} IndexOf(a: string, c: char, b: string)
    requires c !in a
    ensures Index(a + [c] + b, c) == |a| && Index(a, c) == |a|
  {
    if a != [] {
      IndexOf(a[1..], c, b);
      assert (a + [c] + b)[1..] == a[1..] + [c] + b;
    }
  }

  lemma CutAt(a: string, c: char, b: string)
    requires c !in a
    ensures var s := a + [c] + b;
            Index(s, c) == |a| < |s| && s[..|a|] == a && s[|a| + 1..] == b
  {
    IndexOf(a, c, b);
  }

  lemma {:induction false} SplitOfJoin(parts: seq<string>, c: char)
    requires parts != [] && forall i :: 0 <= i < |parts| ==> c !in parts[i]
    ensures Split(Join(parts, c), c) == parts
  {
    if |parts| == 1 {
      IndexOf(parts[0], c, []);
    } else {
      var rest := Join(parts[1..], c);
      SplitOfJoin(parts[1..], c);
      CutAt(parts[0], c, rest);
      assert Join(parts, c) == parts[0] + [c] + rest;
      assert Split(parts[0] + [c] + rest, c) == [parts[0]] + Split(rest, c);
      assert parts == [parts[0]] + parts[1..];
    }
  }

  lemma {:induction false} JoinOfSplit(s: string, c: char)
    ensures Join(Split(s, c), c) == s
    decreases |s|
  {
    var i := Index(s, c);
    if i < |s| {
      var rest := Split(s[i + 1..], c);
      JoinOfSplit(s[i + 1..], c);
      assert Split(s, c) == [s[..i]] + rest;
      assert ([s[..i]] + rest)[1..] == rest;
      assert Join(Split(s, c), c) == s[..i] + [c] + Join(rest, c);
    }
  }

  // ----- identifiers

  lemma IdentRoundTrip(x: Ident)
    requires IdentOk(x)
    ensures ParseIdent(PrintIdent(x)) == Some(x) && PrintIdent(x) != [] && AllAlnum(PrintIdent(x))
  {
    if x.Num? {
      DecimalParses(x.n);
    }
  }

  lemma IdentPrints(s: string)
    requires ParseIdent(s).Some?
    ensures PrintIdent(ParseIdent(s).value) == s && IdentOk(ParseIdent(s).value)
  {
    if s != [] && AllDigits(s) {
      ValuePrints(s);
    }
  }

  lemma {:induction false} IdentsRoundTrip(xs: seq<Ident>)
    requires forall i :: 0 <= i < |xs| ==> IdentOk(xs[i])
    ensures ParseIdents(PrintIdents(xs)) == Some(xs) && BuildOk(PrintIdents(xs))
  {
    var parts := PrintIdents(xs);
    if xs == [] {
      assert parts == [];
    } else {
      IdentRoundTrip(xs[0]);
      IdentsRoundTrip(xs[1..]);
      assert parts[1..] == PrintIdents(xs[1..]);
      assert parts[0] == PrintIdent(xs[0]);
      assert [xs[0]] + xs[1..] == xs;
      forall i | 0 <= i < |parts|
        ensures parts[i] != [] && AllAlnum(parts[i])
      {
        IdentRoundTrip(xs[i]);
      }
    }
  }

  lemma {:induction false} IdentsPrint(parts: seq<string>)
    requires ParseIdents(parts).Some?
    ensures PrintIdents(ParseIdents(parts).value) == parts
    ensures forall i :: 0 <= i < |ParseIdents(parts).value| ==> IdentOk(ParseIdents(parts).value[i])
  {
    if parts != [] {
      IdentPrints(parts[0]);
      IdentsPrint(parts[1..]);
      assert parts == [parts[0]] + parts[1..];
    }
  }

  /** Printed identifier lists hold no dot inside a part and no plus sign at all. */
  lemma {:induction false} JoinHas(parts: seq<string>, bad: char)
    requires BuildOk(parts) && !IsAlnum(bad) && bad != '.'
    ensures bad !in Join(parts, '.')
    ensures forall i :: 0 <= i < |parts| ==> '.' !in parts[i]
  {
    if |parts| == 1 {
      assert AllAlnum(parts[0]);
    } else if |parts| > 1 {
      assert AllAlnum(parts[0]);
      JoinHas(parts[1..], bad);
      assert parts == [parts[0]] + parts[1..];
    }
  }

  // ----- versions

  lemma DigitsHoldNo(n: nat, c: char)
    requires !IsDigit(c)
    ensures c !in Decimal(n)
  {
    DecimalParses(n);
  }

  /** What the library makes of a suffix: the parts after its mark. */
  function PartsAfter(s: string, mark: char): seq<string> {
    var i := Index(s, mark);
    if i < |s| then Split(s[i + 1..], '.') else []
  }

  lemma SuffixRoundTrip(head: string, mark: char, parts: seq<string>)
    requires mark !in head && BuildOk(parts)
    ensures var s := head + Suffix(mark, parts);
            Index(s, mark) == |head| && s[..|head|] == head && PartsAfter(s, mark) == parts && (parts == [] <==> |s| == |head|)
  {
    if parts == [] {
      IndexOf(head, mark, []);
      assert head + Suffix(mark, parts) == head;
    } else {
      JoinHas(parts, '+');
      SplitOfJoin(parts, '.');
      CutAt(head, mark, Join(parts, '.'));
      assert head + Suffix(mark, parts) == head + [mark] + Join(parts, '.');
    }
  }

  lemma CutBack(s: string, i: nat, mark: char)
    requires i < |s| && s[i] == mark
    ensures s == s[..i] + ([mark] + s[i + 1..])
  {
  }

  lemma SuffixPrints(s: string, mark: char)
    ensures s == s[..Index(s, mark)] + Suffix(mark, PartsAfter(s, mark))
  {
    var i := Index(s, mark);
    if i < |s| {
      CutBack(s, i, mark);
      JoinOfSplit(s[i + 1..], '.');
    } else {
      assert s[..i] == s && s + [] == s;
    }
  }

  lemma ParsePatchBySuffixes(s: string)
    ensures var head := s[..Index(s, '+')];
            var patch, pre := ParseNumber(head[..Index(head, '-')]), ParseIdents(PartsAfter(head, '-'));
            ParsePatch(s) == if patch.Some? && pre.Some? && BuildOk(PartsAfter(s, '+'))
                             then Some((patch.value, pre.value, PartsAfter(s, '+'))) else None
  {
  }

  lemma HeadHoldsNoPlus(patch: nat, parts: seq<string>)
    requires BuildOk(parts)
    ensures '+' !in Decimal(patch) + Suffix('-', parts) && '-' !in Decimal(patch)
  {
    DigitsHoldNo(patch, '+');
    DigitsHoldNo(patch, '-');
    JoinHas(parts, '+');
  }

  lemma TailRoundTrip(patch: nat, pre: seq<Ident>, build: seq<string>)
    requires patch < LIMIT && (forall i :: 0 <= i < |pre| ==> IdentOk(pre[i])) && BuildOk(build)
    ensures ParsePatch(PrintTail(patch, pre, build)) == Some((patch, pre, build))
  {
    var parts := PrintIdents(pre);
    var head := Decimal(patch) + Suffix('-', parts);
    NumbersRoundTrip(patch);
    IdentsRoundTrip(pre);
    HeadHoldsNoPlus(patch, parts);
    SuffixRoundTrip(Decimal(patch), '-', parts);
    SuffixRoundTrip(head, '+', build);
    ParsePatchBySuffixes(head + Suffix('+', build));
  }

  /** A version string is cut at its first two dots. */
  function Assemble(major: Option<nat>, minor: Option<nat>, rest: Option<(nat, seq<Ident>, seq<string>)>): Option<Version> {
    if major.Some? && minor.Some? && rest.Some?
    then Some(Version(major.value, minor.value, rest.value.0, rest.value.1, rest.value.2)) else None
  }

  lemma ParseCutsAtDots(a: string, b: string, tail: string)
    requires '.' !in a && '.' !in b
    ensures Parse(a + ['.'] + (b + ['.'] + tail)) == Assemble(ParseNumber(a), ParseNumber(b), ParsePatch(tail))
  {
    CutAt(b, '.', tail);
    CutAt(a, '.', b + ['.'] + tail);
  }

  /** Parsing what was printed gives the version back. */
  lemma VersionRoundTrip(v: Version)
    requires Valid(v)
    ensures Parse(Print(v)) == Some(v)
  {
    var tail := PrintTail(v.patch, v.pre, v.build);
    DigitsHoldNo(v.major, '.');
    DigitsHoldNo(v.minor, '.');
    ParseCutsAtDots(Decimal(v.major), Decimal(v.minor), tail);
    NumbersRoundTrip(v.major);
    NumbersRoundTrip(v.minor);
    TailRoundTrip(v.patch, v.pre, v.build);
  }

  lemma NumberPrints(s: string)
    requires ParseNumber(s).Some?
    ensures Decimal(ParseNumber(s).value) == s && ParseNumber(s).value < LIMIT
  {
    ValuePrints(s);
  }

  lemma PatchPrints(s: string)
    requires ParsePatch(s).Some?
    ensures var (patch, pre, build) := ParsePatch(s).value;
            && PrintTail(patch, pre, build) == s && patch < LIMIT && BuildOk(build)
            && forall i :: 0 <= i < |pre| ==> IdentOk(pre[i])
  {
    var head := s[..Index(s, '+')];
    ParsePatchBySuffixes(s);
    SuffixPrints(s, '+');
    SuffixPrints(head, '-');
    NumberPrints(head[..Index(head, '-')]);
    IdentsPrint(PartsAfter(head, '-'));
  }

  lemma TwoDots(s: string) returns (i: nat, j: nat)
    requires Parse(s).Some?
    ensures i == Index(s, '.') < |s| && j == Index(s[i + 1..], '.') < |s[i + 1..]|
  {
    i := Index(s, '.');
    j := Index(s[i + 1..], '.');
  }

  lemma CutTwice(s: string, i: nat, j: nat)
    requires i < |s| && s[i] == '.' && j < |s[i + 1..]| && s[i + 1..][j] == '.'
    ensures var r := s[i + 1..];
            s == s[..i] + ['.'] + (r[..j] + ['.'] + r[j + 1..])
  {
    CutBack(s, i, '.');
    CutBack(s[i + 1..], j, '.');
  }

  lemma DotsCutParse(s: string) returns (a: string, b: string, tail: string)
    requires Parse(s).Some?
    ensures s == a + ['.'] + (b + ['.'] + tail)
    ensures Parse(s) == Assemble(ParseNumber(a), ParseNumber(b), ParsePatch(tail))
  {
    var i, j := TwoDots(s);
    a, b, tail := s[..i], s[i + 1..][..j], s[i + 1..][j + 1..];
    CutTwice(s, i, j);
    ParseCutsAtDots(a, b, tail);
  }

  /** Printing what was parsed gives the string back, so parsing is injective. */
  lemma StringRoundTrip(s: string)
    requires Parse(s).Some?
    ensures Print(Parse(s).value) == s && Valid(Parse(s).value)
  {
    var a, b, tail := DotsCutParse(s);
    NumberPrints(a);
    NumberPrints(b);
    PatchPrints(tail);
  }
}
