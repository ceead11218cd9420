/** The version grammar of Semantic Versioning 2.0.0, sections 2, 9 and 10, within 64 bits. */
module SemverGrammar {
  import opened Cluster
  import opened Semver
  import opened SemverText

  /** Digits without a leading zero, below 2^64. */
  predicate Numeral(s: string) {
    s != [] && AllDigits(s) && (|s| > 1 ==> s[0] != '0') && DecimalValue(s) < 0x1_0000_0000_0000_0000
  }

  /** Letters, digits and dashes. */
  predicate Text(s: string) {
    s != [] && forall c :: c in s ==> '0' <= c <= '9' || 'a' <= c <= 'z' || 'A' <= c <= 'Z' || c == '-'
  }

  /** An identifier of a pre-release: a text, and a numeral if it is all digits. */
  predicate Identifier(s: string) {
    Text(s) && (AllDigits(s) ==> Numeral(s))
  }

  /** Three numerals, identifiers after a dash, texts after a plus sign. */
  ghost predicate Spells(s: string, a: string, b: string, c: string, pre: seq<string>, build: seq<string>) {
    && Numeral(a) && Numeral(b) && Numeral(c)
    && (forall i :: 0 <= i < |pre| ==> Identifier(pre[i])) && (forall i :: 0 <= i < |build| ==> Text(build[i]))
    && s == a + ['.'] + (b + ['.'] + ((c + Suffix('-', pre)) + Suffix('+', build)))
  }

  lemma NumeralOf(n: nat)
    requires n < LIMIT
    ensures Numeral(Decimal(n))
  {
    DecimalParses(n);
  }

  lemma NumeralPrints(s: string)
    requires Numeral(s)
    ensures Decimal(DecimalValue(s)) == s && DecimalValue(s) < LIMIT
  {
    ValuePrints(s);
  }

  lemma TextIff(s: string)
    ensures Text(s) <==> s != [] && AllAlnum(s)
  {
    assert AllAlnum(s) <==> forall c :: c in s ==> IsAlnum(c);
  }

  lemma IdentifierOf(x: Ident)
    requires IdentOk(x)
    ensures Identifier(PrintIdent(x))
  {
    IdentRoundTrip(x);
    TextIff(PrintIdent(x));
    if x.Num? {
      NumeralOf(x.n);
    }
  }

  /** A numeral is a number, everything else is itself. */
  predicate Reads(s: string, x: Ident) {
    x == if AllDigits(s) then Num(DecimalValue(s)) else Alpha(s)
  }

  predicate AllRead(parts: seq<string>, xs: seq<Ident>) {
    |xs| == |parts| && forall i :: 0 <= i < |xs| ==> Reads(parts[i], xs[i])
  }

  lemma IdentifierPrints(s: string) returns (x: Ident)
    requires Identifier(s)
    ensures IdentOk(x) && PrintIdent(x) == s && Reads(s, x)
  {
    TextIff(s);
    if AllDigits(s) {
      NumeralPrints(s);
      x := Num(DecimalValue(s));
    } else {
      x := Alpha(s);
    }
  }

  lemma {:induction false} IdentifiersPrint(parts: seq<string>) returns (xs: seq<Ident>)
    requires forall i :: 0 <= i < |parts| ==> Identifier(parts[i])
    ensures PrintIdents(xs) == parts && AllRead(parts, xs) && forall i :: 0 <= i < |xs| ==> IdentOk(xs[i])
  {
    xs := [];
    if parts != [] {
      var n := |parts| - 1;
      var init := IdentifiersPrint(parts[..n]);
      var x := IdentifierPrints(parts[n]);
      xs := init + [x];
      assert PrintIdents(xs) == PrintIdents(init) + [PrintIdent(x)];
    }
  }

  lemma ValidSpells(v: Version)
    requires Valid(v)
    ensures Spells(Print(v), Decimal(v.major), Decimal(v.minor), Decimal(v.patch), PrintIdents(v.pre), v.build)
  {
    NumeralOf(v.major);
    NumeralOf(v.minor);
    NumeralOf(v.patch);
    forall i | 0 <= i < |v.pre|
      ensures Identifier(PrintIdents(v.pre)[i])
    {
      IdentifierOf(v.pre[i]);
    }
    forall i | 0 <= i < |v.build|
      ensures Text(v.build[i])
    {
      TextIff(v.build[i]);
    }
  }

  /** What the strings of the grammar say. */
  predicate Says(v: Version, a: string, b: string, c: string, pre: seq<string>, build: seq<string>)
    requires Numeral(a) && Numeral(b) && Numeral(c)
  {
    && v.major == DecimalValue(a) && v.minor == DecimalValue(b) && v.patch == DecimalValue(c)
    && AllRead(pre, v.pre) && v.build == build
  }

  lemma SpelledIsValid(s: string, a: string, b: string, c: string, pre: seq<string>, build: seq<string>) returns (v: Version)
    requires Spells(s, a, b, c, pre, build)
    ensures Valid(v) && Print(v) == s && Says(v, a, b, c, pre, build)
  {
    NumeralPrints(a);
    NumeralPrints(b);
    NumeralPrints(c);
    var xs := IdentifiersPrint(pre);
    forall i | 0 <= i < |build|
      ensures build[i] != [] && AllAlnum(build[i])
    {
      TextIff(build[i]);
    }
    v := Version(DecimalValue(a), DecimalValue(b), DecimalValue(c), xs, build);
  }

  /** Exactly the strings of the grammar parse. */
  lemma ParsesIff(s: string)
    ensures Parse(s).Some? <==> exists a, b, c, pre, build :: Spells(s, a, b, c, pre, build)
  {
    if Parse(s).Some? {
      StringRoundTrip(s);
      ValidSpells(Parse(s).value);
    }
    if a, b, c, pre, build :| Spells(s, a, b, c, pre, build) {
      ParsesTo(s, a, b, c, pre, build);
    }
  }

  /** And they parse to what they say. */
  lemma ParsesTo(s: string, a: string, b: string, c: string, pre: seq<string>, build: seq<string>)
    requires Spells(s, a, b, c, pre, build)
    ensures Parse(s).Some? && Says(Parse(s).value, a, b, c, pre, build)
  {
    var v := SpelledIsValid(s, a, b, c, pre, build);
    VersionRoundTrip(v);
  }
}
