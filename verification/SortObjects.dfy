/** The in-place sort, through Len, Less and Swap alone. */
module SortObjects {
  import opened Cluster
  import opened Strings
  import opened KindSorter

  ghost function Elements(s: seq<Object>): set<Object> {
    set o | o in s
  }

  /** No later object is below an earlier one. */
  ghost predicate Sorted(ordering: Ordering, s: seq<Object>) {
    forall i, j :: 0 <= i < j < |s| ==> !Less(ordering, s[j], s[i])
  }

  class Sorter {
    const objects: array<Object>
    const ordering: Ordering

    constructor (objects: array<Object>, ordering: Ordering)
      ensures this.objects == objects && this.ordering == ordering
    {
      this.objects, this.ordering := objects, ordering;
    }

    method Len() returns (n: nat)
      ensures n == objects.Length
    {
      n := objects.Length;
    }

    method Less(i: nat, j: nat) returns (below: bool)
      requires i < objects.Length && j < objects.Length
      ensures below == KindSorter.Less(ordering, objects[i], objects[j])
    {
      var a, b := objects[i], objects[j];
      var first, aok := 0, a.gvk.kind in ordering;
      var second, bok := 0, b.gvk.kind in ordering;
      if aok { first := ordering[a.gvk.kind]; }
      if bok { second := ordering[b.gvk.kind]; }
      if first == second {
        if !aok && !bok && a.gvk.kind != b.gvk.kind {
          return Before(a.gvk.kind, b.gvk.kind);
        }
        return Before(a.name, b.name);
      }
      if !aok { return false; }
      if !bok { return true; }
      return first < second;
    }

    method Swap(i: nat, j: nat)
      requires i < objects.Length && j < objects.Length
      modifies objects
      ensures objects[..] == old(objects[..][i := objects[j]][j := objects[i]])
      ensures multiset(objects[..]) == old(multiset(objects[..]))
    {
      objects[i], objects[j] := objects[j], objects[i];
      assert multiset(objects[..]) == old(multiset(objects[..]));
    }
  }

  lemma SameElements(s: seq<Object>, t: seq<Object>)
    requires multiset(s) == multiset(t)
    ensures Elements(s) == Elements(t) && |s| == |t|
  {
    forall o
      ensures o in s <==> o in t
    {
      assert o in s <==> o in multiset(s);
      assert o in t <==> o in multiset(t);
    }
    assert |multiset(s)| == |s| && |multiset(t)| == |t|;
  }

  /** `s[..n]` is sorted but for the object at `j`, which belongs at `j` or before. */
  ghost predicate SortedBut(ordering: Ordering, s: seq<Object>, n: nat, j: nat)
    requires j < n <= |s|
  {
    && (forall p, q :: 0 <= p < q < n && p != j && q != j ==> !Less(ordering, s[q], s[p]))
    && (forall q :: j < q < n ==> !Less(ordering, s[q], s[j]))
  }

  lemma SinkOne(ordering: Ordering, s: seq<Object>, n: nat, j: nat)
    requires 0 < j < n <= |s| && SortedBut(ordering, s, n, j) && Less(ordering, s[j], s[j - 1])
    ensures SortedBut(ordering, s[j := s[j - 1]][j - 1 := s[j]], n, j - 1)
  {
    LessIsAsymmetric(ordering, s[j], s[j - 1]);
  }

  lemma Settled(ordering: Ordering, s: seq<Object>, n: nat, j: nat)
    requires j < n <= |s| && SortedBut(ordering, s, n, j) && Cuts(ordering, Elements(s))
    requires j > 0 ==> !Less(ordering, s[j], s[j - 1])
    ensures Sorted(ordering, s[..n])
  {
    forall p | 0 <= p < j
      ensures !Less(ordering, s[j], s[p])
    {
      if p < j - 1 {
        assert s[j] in Elements(s) && s[j - 1] in Elements(s) && s[p] in Elements(s);
      }
    }
  }

  lemma StartSink(ordering: Ordering, s: seq<Object>, i: nat)
    requires i < |s| && Sorted(ordering, s[..i])
    ensures SortedBut(ordering, s, i + 1, i)
  {
    assert forall p :: 0 <= p < i ==> s[..i][p] == s[p];
  }

  lemma EndSink(ordering: Ordering, s: seq<Object>, was: seq<Object>, i: nat, j: nat)
    requires multiset(s) == multiset(was) && Cuts(ordering, Elements(was))
    requires j <= i < |s| && SortedBut(ordering, s, i + 1, j) && (j > 0 ==> !Less(ordering, s[j], s[j - 1]))
    ensures Sorted(ordering, s[..i + 1])
  {
    SameElements(s, was);
    Settled(ordering, s, i + 1, j);
  }

  /** Object `i` sinks to its place among the sorted ones below it. */
  method Sink(sorter: Sorter, i: nat)
    requires i < sorter.objects.Length
    modifies sorter.objects
    ensures multiset(sorter.objects[..]) == old(multiset(sorter.objects[..]))
    ensures old(Cuts(sorter.ordering, Elements(sorter.objects[..])) && Sorted(sorter.ordering, sorter.objects[..][..i])) ==>
              Sorted(sorter.ordering, sorter.objects[..][..i + 1])
  {
    ghost var was, ordering := sorter.objects[..], sorter.ordering;
    ghost var good := Cuts(ordering, Elements(was)) && Sorted(ordering, was[..i]);
    if good {
      StartSink(ordering, was, i);
    }
    var j: nat := i;
    while j > 0
      invariant j <= i
      invariant multiset(sorter.objects[..]) == multiset(was)
      invariant good ==> SortedBut(ordering, sorter.objects[..], i + 1, j)
    {
      var below := sorter.Less(j, j - 1);
      if !below { break; }
      ghost var s := sorter.objects[..];
      if good {
        SinkOne(ordering, s, i + 1, j);
      }
      sorter.Swap(j, j - 1);
      assert sorter.objects[..] == s[j := s[j - 1]][j - 1 := s[j]];
      j := j - 1;
    }
    if good {
      EndSink(ordering, sorter.objects[..], was, i, j);
    }
  }

  /** A sort through Len, Less and Swap alone. It always permutes, and it sorts wherever the
      comparator is a strict weak order on what it is given. */
  method Sort(sorter: Sorter)
    modifies sorter.objects
    ensures multiset(sorter.objects[..]) == old(multiset(sorter.objects[..]))
    ensures StrictWeakOrder(sorter.ordering, old(Elements(sorter.objects[..]))) ==> Sorted(sorter.ordering, sorter.objects[..])
  {
    ghost var was := sorter.objects[..];
    ghost var weak := StrictWeakOrder(sorter.ordering, Elements(was));
    CutsIff(sorter.ordering, Elements(was));
    var n := sorter.Len();
    var i := 0;
    while i < n
      invariant i <= n == sorter.objects.Length
      invariant multiset(sorter.objects[..]) == multiset(was)
      invariant weak ==> Sorted(sorter.ordering, sorter.objects[..][..i])
    {
      SameElements(sorter.objects[..], was);
      Sink(sorter, i);
      i := i + 1;
    }
    assert sorter.objects[..] == sorter.objects[..][..n];
  }

  method NewOrdering(order: seq<string>) returns (ordering: Ordering)
    ensures ordering == OrderingOf(order)
  {
    ordering := map[];
    for v := 0 to |order|
      invariant ordering == OrderingOf(order[..v])
    {
      assert order[..v + 1][..v] == order[..v];
      ordering := ordering[order[v] := v];
    }
    assert order[..|order|] == order;
  }

  method SortInPlace(objects: array<Object>, order: seq<string>)
    modifies objects
    ensures multiset(objects[..]) == old(multiset(objects[..]))
    ensures StrictWeakOrder(OrderingOf(order), old(Elements(objects[..]))) ==> Sorted(OrderingOf(order), objects[..])
  {
    var ordering := NewOrdering(order);
    var sorter := new Sorter(objects, ordering);
    Sort(sorter);
  }
}
