/** Comparing rendered objects by kind, and exactly where the comparator is an order. */
module KindSorter {
  import opened Cluster
  import opened Strings

  type Ordering = map<string, nat>

  /** The last position of every kind in an order, as the filling loop leaves it. */
  function OrderingOf(order: seq<string>): Ordering {
    if order == [] then map[]
    else OrderingOf(order[..|order| - 1])[order[|order| - 1] := |order| - 1]
  }

  lemma {:induction false} OrderingOfDistinct(order: seq<string>)
    requires forall i, j :: 0 <= i < j < |order| ==> order[i] != order[j]
    ensures forall k :: k in OrderingOf(order) <==> k in order
    ensures forall i :: 0 <= i < |order| ==> order[i] in OrderingOf(order) && OrderingOf(order)[order[i]] == i
  {
    if order != [] {
      var n := |order| - 1;
      OrderingOfDistinct(order[..n]);
      assert order == order[..n] + [order[n]];
    }
  }

  /** A missing kind reads as rank 0. */
  function Rank(ordering: Ordering, o: Object): nat {
    if o.gvk.kind in ordering then ordering[o.gvk.kind] else 0
  }

  predicate Listed(ordering: Ordering, o: Object) {
    o.gvk.kind in ordering
  }

  predicate Less(ordering: Ordering, a: Object, b: Object) {
    if Rank(ordering, a) == Rank(ordering, b) then
      if !Listed(ordering, a) && !Listed(ordering, b) && a.gvk.kind != b.gvk.kind
      then Before(a.gvk.kind, b.gvk.kind)
      else Before(a.name, b.name)
    else if !Listed(ordering, a) then false
    else if !Listed(ordering, b) then true
    else Rank(ordering, a) < Rank(ordering, b)
  }

  predicate Tied(ordering: Ordering, a: Object, b: Object) {
    !Less(ordering, a, b) && !Less(ordering, b, a)
  }

  ghost predicate Irreflexive(ordering: Ordering, xs: set<Object>) {
    forall a :: a in xs ==> !Less(ordering, a, a)
  }

  ghost predicate Transitive(ordering: Ordering, xs: set<Object>) {
    forall a, b, c :: a in xs && b in xs && c in xs && Less(ordering, a, b) && Less(ordering, b, c) ==> Less(ordering, a, c)
  }

  ghost predicate TiesTransitive(ordering: Ordering, xs: set<Object>) {
    forall a, b, c :: a in xs && b in xs && c in xs && Tied(ordering, a, b) && Tied(ordering, b, c) ==> Tied(ordering, a, c)
  }

  ghost predicate StrictWeakOrder(ordering: Ordering, xs: set<Object>) {
    Irreflexive(ordering, xs) && Transitive(ordering, xs) && TiesTransitive(ordering, xs)
  }

  // ----- the exact domain of the comparator

  predicate First(ordering: Ordering, o: Object) {
    Listed(ordering, o) && Rank(ordering, o) == 0
  }

  predicate Ranked(ordering: Ordering, o: Object) {
    Rank(ordering, o) > 0
  }

  /** Every object of the first kind is named below every object of an unlisted kind. */
  ghost predicate FirstNamedBelow(ordering: Ordering, xs: set<Object>) {
    forall z, u :: z in xs && u in xs && First(ordering, z) && !Listed(ordering, u) ==> Before(z.name, u.name)
  }

  /** Two objects of different unlisted kinds, in the order of their kinds. */
  predicate Unlisted(ordering: Ordering, u: Object, v: Object) {
    !Listed(ordering, u) && !Listed(ordering, v) && Before(u.gvk.kind, v.gvk.kind)
  }

  /** Wherever two unlisted kinds differ, each first-kind name decides between them. */
  ghost predicate FirstNamesSeparate(ordering: Ordering, xs: set<Object>) {
    forall z, u, v ::
      z in xs && u in xs && v in xs && First(ordering, z) && Unlisted(ordering, u, v) ==>
        Before(u.name, z.name) || Before(z.name, v.name)
  }

  ghost predicate NamesAllow(ordering: Ordering, xs: set<Object>) {
    if exists p :: p in xs && Ranked(ordering, p) then FirstNamedBelow(ordering, xs) else FirstNamesSeparate(ordering, xs)
  }

  /** Negative transitivity, the form of a strict weak order the sort runs on. */
  ghost predicate Cuts(ordering: Ordering, xs: set<Object>) {
    forall a, b, c :: a in xs && b in xs && c in xs && Less(ordering, a, c) ==> Less(ordering, a, b) || Less(ordering, b, c)
  }

  lemma LessIsAsymmetric(ordering: Ordering, a: Object, b: Object)
    ensures !(Less(ordering, a, b) && Less(ordering, b, a))
  {
    BeforeIsTotal(a.name, b.name);
    BeforeIsTotal(a.gvk.kind, b.gvk.kind);
  }

  lemma CutsIff(ordering: Ordering, xs: set<Object>)
    ensures StrictWeakOrder(ordering, xs) <==> Cuts(ordering, xs)
  {
    forall a, b
      ensures !(Less(ordering, a, b) && Less(ordering, b, a))
    {
      LessIsAsymmetric(ordering, a, b);
    }
    if StrictWeakOrder(ordering, xs) {
      forall a, b, c | a in xs && b in xs && c in xs && Less(ordering, a, c)
        ensures Less(ordering, a, b) || Less(ordering, b, c)
      {
        if !Less(ordering, a, b) && !Less(ordering, b, c) {
          assert Less(ordering, b, a) ==> Less(ordering, b, c);
          assert Less(ordering, c, b) ==> Less(ordering, a, b);
          assert Tied(ordering, a, b) && Tied(ordering, b, c);
        }
      }
    }
  }

  lemma CutsOne(ordering: Ordering, xs: set<Object>, a: Object, b: Object, c: Object)
    requires NamesAllow(ordering, xs) && a in xs && b in xs && c in xs && Less(ordering, a, c)
    ensures Less(ordering, a, b) || Less(ordering, b, c)
  {
    BeforeIsTotal(a.name, b.name);
    BeforeIsTotal(b.name, c.name);
    BeforeIsTotal(a.gvk.kind, b.gvk.kind);
    BeforeIsTotal(b.gvk.kind, c.gvk.kind);
    if Before(c.name, b.name) && Before(b.name, a.name) {
      BeforeIsTransitive(c.name, b.name, a.name);
      BeforeIsTotal(a.name, c.name);
    }
    if Before(c.gvk.kind, b.gvk.kind) && Before(b.gvk.kind, a.gvk.kind) {
      BeforeIsTransitive(c.gvk.kind, b.gvk.kind, a.gvk.kind);
      BeforeIsTotal(a.gvk.kind, c.gvk.kind);
    }
    BeforeIsTotal(a.name, c.name);
  }

  lemma NamesAllowCuts(ordering: Ordering, xs: set<Object>)
    requires NamesAllow(ordering, xs)
    ensures Cuts(ordering, xs)
  {
    forall a, b, c | a in xs && b in xs && c in xs && Less(ordering, a, c)
      ensures Less(ordering, a, b) || Less(ordering, b, c)
    {
      CutsOne(ordering, xs, a, b, c);
    }
  }

  lemma CutsForceNames(ordering: Ordering, xs: set<Object>, z: Object, u: Object, p: Object)
    requires Cuts(ordering, xs) && z in xs && u in xs && p in xs
    requires First(ordering, z) && !Listed(ordering, u) && Ranked(ordering, p)
    ensures Before(z.name, u.name)
  {
    assert Less(ordering, z, p) && !Less(ordering, u, p);
  }

  lemma CutsForceSeparation(ordering: Ordering, xs: set<Object>, z: Object, u: Object, v: Object)
    requires Cuts(ordering, xs) && z in xs && u in xs && v in xs
    requires First(ordering, z) && Unlisted(ordering, u, v)
    ensures Before(u.name, z.name) || Before(z.name, v.name)
  {
    BeforeIsTotal(u.gvk.kind, v.gvk.kind);
    assert Less(ordering, u, v);
  }

  /** The comparator is a strict weak order on a collection exactly when the names allow it,
      whatever the order is. */
  lemma ComparatorDomain(ordering: Ordering, xs: set<Object>)
    ensures StrictWeakOrder(ordering, xs) <==> NamesAllow(ordering, xs)
  {
    CutsIff(ordering, xs);
    if NamesAllow(ordering, xs) {
      NamesAllowCuts(ordering, xs);
    } else if Cuts(ordering, xs) {
      if exists p :: p in xs && Ranked(ordering, p) {
        var p :| p in xs && Ranked(ordering, p);
        var z, u :| z in xs && u in xs && First(ordering, z) && !Listed(ordering, u) && !Before(z.name, u.name);
        CutsForceNames(ordering, xs, z, u, p);
      } else {
        var z, u, v :| z in xs && u in xs && v in xs && First(ordering, z) && Unlisted(ordering, u, v)
                       && !Before(u.name, z.name) && !Before(z.name, v.name);
        CutsForceSeparation(ordering, xs, z, u, v);
      }
    }
  }

  /** The comparator in terms of positions in the order, `|order|` standing for a kind it does
      not list: listed kinds by position, one kind by name, listed kinds before unlisted ones,
      those by kind; but the first kind is mixed with the unlisted ones by name. */
  lemma NotBelowIff(order: seq<string>, a: Object, b: Object, p: nat, q: nat)
    requires forall i, j :: 0 <= i < j < |order| ==> order[i] != order[j]
    requires if p < |order| then order[p] == a.gvk.kind else p == |order| && a.gvk.kind !in order
    requires if q < |order| then order[q] == b.gvk.kind else q == |order| && b.gvk.kind !in order
    ensures !Less(OrderingOf(order), b, a) <==>
            if a.gvk.kind == b.gvk.kind then !Before(b.name, a.name)
            else if p < |order| && q < |order| then p < q
            else if p < |order| then p > 0 || !Before(b.name, a.name)
            else if q < |order| then q == 0 && !Before(b.name, a.name)
            else !Before(b.gvk.kind, a.gvk.kind)
  {
    OrderingOfDistinct(order);
  }
}
