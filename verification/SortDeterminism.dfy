/** What the sort leaves open: when two sorted results must agree on kinds and names. */
module SortDeterminism {
  import opened Cluster
  import opened Strings
  import opened KindSorter
  import opened SortObjects

  /** The part of an object the comparator sees: its kind and its name. */
  function Bare(o: Object): Object {
    Object(Gvk("", "", o.gvk.kind), "", o.name, Plain(""))
  }

  function KindsAndNames(s: seq<Object>): seq<Object> {
    seq(|s|, i requires 0 <= i < |s| => Bare(s[i]))
  }

  /** `t` is a result the sort may leave for `s`. */
  ghost predicate SortedForm(ordering: Ordering, s: seq<Object>, t: seq<Object>) {
    multiset(t) == multiset(s) && Sorted(ordering, t)
  }

  ghost predicate OneKindPerRank(ordering: Ordering) {
    forall k, l :: k in ordering && l in ordering && ordering[k] == ordering[l] ==> k == l
  }

  lemma {:induction false} OrderingsHaveOneKindPerRank(order: seq<string>)
    ensures OneKindPerRank(OrderingOf(order)) && forall k :: k in OrderingOf(order) ==> OrderingOf(order)[k] < |order|
  {
    if order != [] {
      OrderingsHaveOneKindPerRank(order[..|order| - 1]);
    }
  }

  /** No object of the first kind shares its name with one of an unlisted kind. */
  ghost predicate NoSharedName(ordering: Ordering, xs: set<Object>) {
    forall z, u :: z in xs && u in xs && First(ordering, z) && !Listed(ordering, u) ==> z.name != u.name
  }

  ghost predicate Determined(ordering: Ordering, s: seq<Object>) {
    forall t, t' :: SortedForm(ordering, s, t) && SortedForm(ordering, s, t') ==> KindsAndNames(t) == KindsAndNames(t')
  }

  // ----- agreement

  function Without<T>(s: seq<T>, k: nat): seq<T>
    requires k < |s|
  {
    s[..k] + s[k + 1..]
  }

  lemma TakeOut<T>(s: seq<T>, k: nat)
    requires k < |s|
    ensures multiset(s) == multiset{s[k]} + multiset(Without(s, k))
  {
    assert s == s[..k] + [s[k]] + s[k + 1..];
  }

  lemma RestsAgree(s: seq<Object>, j: nat, t: seq<Object>, k: nat)
    requires j < |s| && k < |t| && s[j] == t[k] && multiset(s) == multiset(t)
    ensures multiset(Without(s, j)) == multiset(Without(t, k))
  {
    var a, b, x := multiset(Without(s, j)), multiset(Without(t, k)), multiset{s[j]};
    assert x + a == x + b by {
      TakeOut(s, j);
      TakeOut(t, k);
    }
    assert a == (x + a) - x && b == (x + b) - x;
  }

  lemma BareWithout(s: seq<Object>, k: nat)
    requires k < |s|
    ensures KindsAndNames(Without(s, k)) == Without(KindsAndNames(s), k)
  {
  }

  lemma {:induction false} BareKeepsMultisets(s: seq<Object>, t: seq<Object>)
    requires multiset(s) == multiset(t)
    ensures multiset(KindsAndNames(s)) == multiset(KindsAndNames(t))
    decreases |s|
  {
    SameElements(s, t);
    if s != [] {
      assert s[0] in Elements(t);
      var k :| 0 <= k < |t| && t[k] == s[0];
      RestsAgree(s, 0, t, k);
      BareKeepsMultisets(Without(s, 0), Without(t, k));
      BareWithout(s, 0);
      BareWithout(t, k);
      TakeOut(KindsAndNames(s), 0);
      TakeOut(KindsAndNames(t), k);
    }
  }

  lemma HeadsAreTied(ordering: Ordering, s: seq<Object>, t: seq<Object>)
    requires multiset(s) == multiset(t) && Sorted(ordering, s) && Sorted(ordering, t) && s != []
    ensures t != [] && t[0] in s && Tied(ordering, s[0], t[0])
  {
    SameElements(s, t);
    LessIsAsymmetric(ordering, s[0], s[0]);
    assert s[0] in Elements(t) && t[0] in Elements(s);
    var i :| 0 <= i < |s| && s[i] == t[0];
    var j :| 0 <= j < |t| && t[j] == s[0];
    assert !Less(ordering, s[i], s[0]) && !Less(ordering, t[j], t[0]);
  }

  lemma TailsAgree(s: seq<Object>, t: seq<Object>)
    requires s != [] && t != [] && s[0] == t[0] && multiset(s) == multiset(t)
    ensures multiset(s[1..]) == multiset(t[1..])
  {
    RestsAgree(s, 0, t, 0);
    assert Without(s, 0) == s[1..] && Without(t, 0) == t[1..];
  }

  lemma {:induction false} SortedIsUnique(ordering: Ordering, s: seq<Object>, t: seq<Object>)
    requires multiset(s) == multiset(t) && Sorted(ordering, s) && Sorted(ordering, t)
    requires forall a, b :: a in s && b in s && Tied(ordering, a, b) ==> a == b
    ensures s == t
  {
    if s == [] {
      SameElements(s, t);
    } else {
      HeadsAreTied(ordering, s, t);
      TailsAgree(s, t);
      SortedIsUnique(ordering, s[1..], t[1..]);
      assert s == [s[0]] + s[1..] && t == [t[0]] + t[1..];
    }
  }

  lemma BareIsSorted(ordering: Ordering, t: seq<Object>)
    requires Sorted(ordering, t)
    ensures Sorted(ordering, KindsAndNames(t))
  {
    forall i, j | 0 <= i < j < |t|
      ensures !Less(ordering, KindsAndNames(t)[j], KindsAndNames(t)[i])
    {
      assert !Less(ordering, t[j], t[i]);
    }
  }

  lemma TiesAreEqual(ordering: Ordering, a: Object, b: Object)
    requires OneKindPerRank(ordering) && Tied(ordering, a, b)
    requires First(ordering, a) && !Listed(ordering, b) ==> a.name != b.name
    requires First(ordering, b) && !Listed(ordering, a) ==> a.name != b.name
    ensures Bare(a) == Bare(b)
  {
    BeforeIsTotal(a.name, b.name);
    BeforeIsTotal(a.gvk.kind, b.gvk.kind);
  }

  lemma BareTiesAreEqual(ordering: Ordering, xs: set<Object>, t: seq<Object>, a: Object, b: Object)
    requires OneKindPerRank(ordering) && NoSharedName(ordering, xs) && Elements(t) <= xs
    requires a in KindsAndNames(t) && b in KindsAndNames(t) && Tied(ordering, a, b)
    ensures a == b
  {
    var i :| 0 <= i < |t| && Bare(t[i]) == a;
    var j :| 0 <= j < |t| && Bare(t[j]) == b;
    assert t[i] in Elements(t) && t[j] in Elements(t);
    TiesAreEqual(ordering, t[i], t[j]);
  }

  lemma AgreementOfTwo(ordering: Ordering, s: seq<Object>, t: seq<Object>, t': seq<Object>)
    requires OneKindPerRank(ordering) && NoSharedName(ordering, Elements(s))
    requires SortedForm(ordering, s, t) && SortedForm(ordering, s, t')
    ensures KindsAndNames(t) == KindsAndNames(t')
  {
    BareKeepsMultisets(t, t');
    SameElements(s, t);
    BareIsSorted(ordering, t);
    BareIsSorted(ordering, t');
    forall a, b | a in KindsAndNames(t) && b in KindsAndNames(t) && Tied(ordering, a, b)
      ensures a == b
    {
      BareTiesAreEqual(ordering, Elements(s), t, a, b);
    }
    SortedIsUnique(ordering, KindsAndNames(t), KindsAndNames(t'));
  }

  // ----- disagreement

  lemma InsertSorted(ordering: Ordering, t: seq<Object>, x: Object, k: nat)
    requires Cuts(ordering, Elements(t) + {x}) && Sorted(ordering, t) && k <= |t|
    requires k > 0 ==> !Less(ordering, x, t[k - 1])
    requires k < |t| ==> Less(ordering, x, t[k])
    ensures Sorted(ordering, t[..k] + [x] + t[k..])
  {
    var r := t[..k] + [x] + t[k..];
    var xs := Elements(t) + {x};
    forall i, j | 0 <= i < j < |r|
      ensures !Less(ordering, r[j], r[i])
    {
      assert r[i] in xs && r[j] in xs && x in xs;
      if j == k {
        assert t[k - 1] in xs;
      } else if i == k {
        assert t[k] in xs;
        LessIsAsymmetric(ordering, x, t[k]);
      }
    }
  }

  lemma {:induction false} SortedFormExists(ordering: Ordering, s: seq<Object>) returns (t: seq<Object>)
    requires Cuts(ordering, Elements(s))
    ensures SortedForm(ordering, s, t)
  {
    if s == [] {
      t := [];
    } else {
      var n, x := |s| - 1, s[|s| - 1];
      assert s == s[..n] + [x];
      assert Elements(s) == Elements(s[..n]) + {x};
      var r := SortedFormExists(ordering, s[..n]);
      SameElements(s[..n], r);
      var k := PlaceOf(ordering, r, x);
      InsertSorted(ordering, r, x, k);
      Inserted(r, x, k);
      t := r[..k] + [x] + r[k..];
    }
  }

  lemma {:induction false} PlaceOf(ordering: Ordering, t: seq<Object>, x: Object) returns (k: nat)
    ensures k <= |t| && (k > 0 ==> !Less(ordering, x, t[k - 1])) && (k < |t| ==> Less(ordering, x, t[k]))
  {
    k := |t|;
    if t != [] && Less(ordering, x, t[|t| - 1]) {
      k := PlaceOf(ordering, t[..|t| - 1], x);
    }
  }

  lemma Inserted(t: seq<Object>, x: Object, k: nat)
    requires k <= |t|
    ensures multiset(t[..k] + [x] + t[k..]) == multiset(t + [x])
  {
    assert t == t[..k] + t[k..];
  }

  lemma SwapTied(ordering: Ordering, t: seq<Object>, i: nat, j: nat)
    requires Cuts(ordering, Elements(t)) && Sorted(ordering, t) && i < |t| && j < |t| && Tied(ordering, t[i], t[j])
    ensures Sorted(ordering, t[i := t[j]][j := t[i]]) && multiset(t[i := t[j]][j := t[i]]) == multiset(t)
  {
    var r := t[i := t[j]][j := t[i]];
    var xs := Elements(t);
    forall p, q | 0 <= p < q < |r|
      ensures !Less(ordering, r[q], r[p])
    {
      assert t[i] in xs && t[j] in xs && t[p] in xs && t[q] in xs;
      LessIsAsymmetric(ordering, t[i], t[j]);
    }
  }

  lemma ClashDisagrees(ordering: Ordering, s: seq<Object>, z: Object, u: Object)
    requires Cuts(ordering, Elements(s)) && z in s && u in s
    requires First(ordering, z) && !Listed(ordering, u) && z.name == u.name
    ensures !Determined(ordering, s)
  {
    var t := SortedFormExists(ordering, s);
    SameElements(s, t);
    assert z in Elements(t) && u in Elements(t);
    var i :| 0 <= i < |t| && t[i] == z;
    var j :| 0 <= j < |t| && t[j] == u;
    BeforeIsTotal(z.name, u.name);
    SwapTied(ordering, t, i, j);
    var r := t[i := t[j]][j := t[i]];
    assert SortedForm(ordering, s, t) && SortedForm(ordering, s, r);
    assert KindsAndNames(t)[i] != KindsAndNames(r)[i];
  }

  /** Wherever the comparator is an order, the sorted kinds and names are determined exactly
      when no object of the first kind shares its name with one of an unlisted kind. */
  lemma DeterminedIff(order: seq<string>, s: seq<Object>)
    requires StrictWeakOrder(OrderingOf(order), Elements(s))
    ensures Determined(OrderingOf(order), s) <==> NoSharedName(OrderingOf(order), Elements(s))
  {
    var ordering := OrderingOf(order);
    CutsIff(ordering, Elements(s));
    OrderingsHaveOneKindPerRank(order);
    if NoSharedName(ordering, Elements(s)) {
      forall t, t' | SortedForm(ordering, s, t) && SortedForm(ordering, s, t')
        ensures KindsAndNames(t) == KindsAndNames(t')
      {
        AgreementOfTwo(ordering, s, t, t');
      }
    } else {
      var z, u :| z in Elements(s) && u in Elements(s) && First(ordering, z) && !Listed(ordering, u) && z.name == u.name;
      ClashDisagrees(ordering, s, z, u);
    }
  }

  /** As soon as a kind of higher rank is present, being an order is enough. */
  lemma RankedMeansDetermined(order: seq<string>, s: seq<Object>, p: Object)
    requires StrictWeakOrder(OrderingOf(order), Elements(s)) && p in s && Ranked(OrderingOf(order), p)
    ensures Determined(OrderingOf(order), s)
  {
    var ordering := OrderingOf(order);
    ComparatorDomain(ordering, Elements(s));
    assert p in Elements(s);
    forall z, u | z in Elements(s) && u in Elements(s) && First(ordering, z) && !Listed(ordering, u)
      ensures z.name != u.name
    {
      BeforeIsTotal(z.name, u.name);
    }
    DeterminedIff(order, s);
  }

  lemma PairIsSortable(ordering: Ordering, z: Object, u: Object)
    requires First(ordering, z) && !Listed(ordering, u)
    ensures StrictWeakOrder(ordering, {z, u})
  {
    BeforeIsTotal(u.gvk.kind, u.gvk.kind);
    assert FirstNamesSeparate(ordering, {z, u});
    ComparatorDomain(ordering, {z, u});
  }

  /** A first-kind object and one of an unlisted kind, of one name, can always be sorted and
      never in one way only. */
  lemma ClashOfTwo(ordering: Ordering, z: Object, u: Object)
    requires First(ordering, z) && !Listed(ordering, u) && z.name == u.name
    ensures StrictWeakOrder(ordering, Elements([z, u])) && !Determined(ordering, [z, u])
  {
    assert Elements([z, u]) == {z, u};
    PairIsSortable(ordering, z, u);
    assert Cuts(ordering, Elements([z, u])) by {
      CutsIff(ordering, {z, u});
    }
    ClashDisagrees(ordering, [z, u], z, u);
  }
}
