/** Turning a manifest's files into objects. The files come from a map, and Go visits a map
    in any order. */
module Rendering {
  import opened Cluster
  import opened KindSorter
  import opened SortObjects
  import opened SortDeterminism

  /** What the YAML decoder yields next: an object, an empty document, or an error. */
  datatype Document = Parsed(o: Object) | Empty | Broken

  predicate Readable(file: seq<Document>) {
    Broken !in file
  }

  /** The objects of a file, in order; meaningful when the file is readable. */
  function ObjectsOf(file: seq<Document>): seq<Object> {
    if file == [] then []
    else ObjectsOf(file[..|file| - 1]) + if file[|file| - 1].Parsed? then [file[|file| - 1].o] else []
  }

  /** `os[i]` stands at position `p[i]` of the file, and the positions ascend. */
  ghost predicate StandsAt(file: seq<Document>, os: seq<Object>, p: seq<nat>) {
    && |p| == |os|
    && (forall i :: 0 <= i < |p| ==> p[i] < |file| && file[p[i]] == Parsed(os[i]))
    && (forall i, j :: 0 <= i < j < |p| ==> p[i] < p[j])
  }

  /** The objects are those of the documents: each as often, and in the same order. */
  ghost predicate Yields(file: seq<Document>, os: seq<Object>) {
    (forall o :: multiset(os)[o] == multiset(file)[Parsed(o)]) && exists p :: StandsAt(file, os, p)
  }

  lemma {:induction false} ObjectsCount(file: seq<Document>, o: Object)
    ensures multiset(ObjectsOf(file))[o] == multiset(file)[Parsed(o)]
  {
    if file != [] {
      var n := |file| - 1;
      ObjectsCount(file[..n], o);
      assert file == file[..n] + [file[n]];
    }
  }

  lemma {:induction false} ObjectsStand(file: seq<Document>) returns (p: seq<nat>)
    ensures StandsAt(file, ObjectsOf(file), p)
  {
    p := [];
    if file != [] {
      var n := |file| - 1;
      p := ObjectsStand(file[..n]);
      if file[n].Parsed? {
        p := p + [n];
      }
    }
  }

  lemma FileYields(file: seq<Document>)
    ensures Yields(file, ObjectsOf(file))
  {
    forall o
      ensures multiset(ObjectsOf(file))[o] == multiset(file)[Parsed(o)]
    {
      ObjectsCount(file, o);
    }
    var p := ObjectsStand(file);
  }

  /** The decoding loop stops at the first error and then keeps nothing. */
  method ParseObjects(file: seq<Document>) returns (r: Option<seq<Object>>)
    ensures r.Some? <==> Broken !in file
    ensures r.Some? ==> Yields(file, r.value)
    ensures r == if Readable(file) then Some(ObjectsOf(file)) else None
  {
    FileYields(file);
    var objects := [];
    for i := 0 to |file|
      invariant Broken !in file[..i] && objects == ObjectsOf(file[..i])
    {
      assert file[..i + 1][..i] == file[..i];
      if file[i].Broken? { return None; }
      if file[i].Parsed? { objects := objects + [file[i].o]; }
    }
    assert file[..|file|] == file;
    return Some(objects);
  }

  /** An order in which the entries of a map are visited: every key once. */
  ghost predicate Visits(order: seq<string>, files: map<string, seq<Document>>) {
    (forall i, j :: 0 <= i < j < |order| ==> order[i] != order[j]) && forall k :: k in order <==> k in files
  }

  ghost predicate AllReadable(files: map<string, seq<Document>>) {
    forall k :: k in files ==> Readable(files[k])
  }

  function Gather(order: seq<string>, files: map<string, seq<Document>>): seq<Object>
    requires forall k :: k in order ==> k in files
  {
    if order == [] then []
    else Gather(order[..|order| - 1], files) + ObjectsOf(files[order[|order| - 1]])
  }

  /** The documents of all files, one file after the other. */
  function Documents(order: seq<string>, files: map<string, seq<Document>>): seq<Document>
    requires forall k :: k in order ==> k in files
  {
    if order == [] then []
    else Documents(order[..|order| - 1], files) + files[order[|order| - 1]]
  }

  lemma {:induction false} ObjectsInParts(a: seq<Document>, b: seq<Document>)
    ensures ObjectsOf(a + b) == ObjectsOf(a) + ObjectsOf(b)
  {
    if b == [] {
      assert a + b == a;
    } else {
      var n := |b| - 1;
      ObjectsInParts(a, b[..n]);
      assert (a + b)[..|a + b| - 1] == a + b[..n];
    }
  }

  lemma {:induction false} GatherIsOneFile(order: seq<string>, files: map<string, seq<Document>>)
    requires forall k :: k in order ==> k in files
    ensures Gather(order, files) == ObjectsOf(Documents(order, files))
  {
    if order != [] {
      var n := |order| - 1;
      GatherIsOneFile(order[..n], files);
      ObjectsInParts(Documents(order[..n], files), files[order[n]]);
    }
  }

  lemma GatherYields(order: seq<string>, files: map<string, seq<Document>>)
    requires forall k :: k in order ==> k in files
    ensures Yields(Documents(order, files), Gather(order, files))
  {
    GatherIsOneFile(order, files);
    FileYields(Documents(order, files));
  }

  method ParseMappedFileContents(order: seq<string>, files: map<string, seq<Document>>) returns (r: Option<seq<Object>>)
    requires Visits(order, files)
    ensures r.Some? <==> forall k :: k in files ==> Broken !in files[k]
    ensures r.Some? ==> Yields(Documents(order, files), r.value)
    ensures r == if AllReadable(files) then Some(Gather(order, files)) else None
  {
    GatherYields(order, files);
    var objects := [];
    for i := 0 to |order|
      invariant objects == Gather(order[..i], files)
      invariant forall j :: 0 <= j < i ==> Readable(files[order[j]])
    {
      assert order[i] in files && order[..i + 1][..i] == order[..i];
      var more := ParseObjects(files[order[i]]);
      if more.None? { return None; }
      objects := objects + more.value;
    }
    assert order[..|order|] == order;
    return Some(objects);
  }

  // ----- order independence

  lemma WithoutLeavesTheRest(order: seq<string>, files: map<string, seq<Document>>, j: nat)
    requires Visits(order, files) && j < |order|
    ensures Visits(Without(order, j), files - {order[j]})
  {
    var rest := Without(order, j);
    forall k
      ensures k in rest <==> k in order && k != order[j]
    {
      if k in order && k != order[j] {
        var i :| 0 <= i < |order| && order[i] == k;
        assert rest[if i < j then i else i - 1] == k;
      }
    }
  }

  lemma {:induction false} FilesIgnored(order: seq<string>, files: map<string, seq<Document>>, files': map<string, seq<Document>>)
    requires forall k :: k in order ==> k in files && k in files' && files[k] == files'[k]
    ensures Gather(order, files) == Gather(order, files')
  {
    if order != [] {
      FilesIgnored(order[..|order| - 1], files, files');
    }
  }

  lemma GatherLast(order: seq<string>, k: string, files: map<string, seq<Document>>)
    requires k in files && forall l :: l in order ==> l in files
    ensures Gather(order + [k], files) == Gather(order, files) + ObjectsOf(files[k])
  {
    assert (order + [k])[..|order|] == order;
  }

  lemma Regroup<T>(a: seq<T>, b: seq<T>, c: seq<T>)
    ensures (a + b) + c == a + (b + c)
  {
  }

  lemma GatherOneMore(a: seq<string>, b: seq<string>, k: string, files: map<string, seq<Document>>)
    requires k in files && (forall l :: l in a ==> l in files) && (forall l :: l in b ==> l in files)
    requires Gather(a + b, files) == Gather(a, files) + Gather(b, files)
    ensures Gather(a + (b + [k]), files) == Gather(a, files) + Gather(b + [k], files)
  {
    Regroup(a, b, [k]);
    GatherLast(a + b, k, files);
    GatherLast(b, k, files);
    Regroup(Gather(a, files), Gather(b, files), ObjectsOf(files[k]));
  }

  lemma {:induction false} GatherInParts(a: seq<string>, b: seq<string>, files: map<string, seq<Document>>)
    requires (forall k :: k in a ==> k in files) && forall k :: k in b ==> k in files
    ensures Gather(a + b, files) == Gather(a, files) + Gather(b, files)
  {
    if b == [] {
      assert a + b == a;
    } else {
      var init, k := b[..|b| - 1], b[|b| - 1];
      GatherInParts(a, init, files);
      GatherOneMore(a, init, k, files);
      assert b == init + [k];
    }
  }

  lemma GatherOne(k: string, files: map<string, seq<Document>>)
    requires k in files
    ensures Gather([k], files) == ObjectsOf(files[k])
  {
    assert Gather([k], files) == Gather([k][..0], files) + ObjectsOf(files[k]);
  }

  lemma MiddleCounts(a: seq<Object>, middle: seq<Object>, b: seq<Object>)
    ensures multiset(a + (middle + b)) == multiset(a + b) + multiset(middle)
  {
  }

  lemma GatherWithout(order: seq<string>, files: map<string, seq<Document>>, j: nat)
    requires j < |order| && forall k :: k in order ==> k in files
    ensures multiset(Gather(order, files)) == multiset(Gather(Without(order, j), files)) + multiset(ObjectsOf(files[order[j]]))
  {
    var a, k, b := order[..j], order[j], order[j + 1..];
    assert order == a + ([k] + b);
    GatherInParts(a, [k] + b, files);
    GatherInParts([k], b, files);
    GatherInParts(a, b, files);
    GatherOne(k, files);
    MiddleCounts(Gather(a, files), ObjectsOf(files[k]), Gather(b, files));
  }

  lemma FirstIsThere(order: seq<string>)
    ensures order == [] || order[0] in order
  {
  }

  lemma NothingToVisit(order: seq<string>, files: map<string, seq<Document>>)
    requires Visits(order, files) && Visits([], files)
    ensures order == []
  {
    FirstIsThere(order);
    assert forall k :: k in order <==> k in [];
  }

  /** What a set of files holds, whatever the order. */
  lemma {:induction false} GatherCounts(order: seq<string>, order': seq<string>, files: map<string, seq<Document>>)
    requires Visits(order, files) && Visits(order', files)
    ensures multiset(Gather(order, files)) == multiset(Gather(order', files))
    decreases |order|
  {
    if order == [] {
      NothingToVisit(order', files);
    } else {
      var n := |order| - 1;
      var k := order[n];
      assert k in order';
      var j :| 0 <= j < |order'| && order'[j] == k;
      WithoutLeavesTheRest(order, files, n);
      WithoutLeavesTheRest(order', files, j);
      GatherCounts(Without(order, n), Without(order', j), files - {k});
      FilesIgnored(Without(order, n), files, files - {k});
      FilesIgnored(Without(order', j), files, files - {k});
      GatherWithout(order, files, n);
      GatherWithout(order', files, j);
    }
  }

  /** Rendering does not depend on the order of visits: every order succeeds or none does,
      and all of them give the same objects. */
  lemma RenderingIgnoresOrder(order: seq<string>, order': seq<string>, files: map<string, seq<Document>>)
    requires Visits(order, files) && Visits(order', files)
    ensures multiset(Gather(order, files)) == multiset(Gather(order', files))
    ensures Elements(Gather(order, files)) == Elements(Gather(order', files))
  {
    GatherCounts(order, order', files);
    SameElements(Gather(order, files), Gather(order', files));
  }

  /** And after the sort the kinds and names stand in the same sequence too, wherever the
      comparator is an order and no first-kind name is shared with an unlisted kind. */
  lemma SortedRenderingIgnoresOrder(order: seq<string>, order': seq<string>, files: map<string, seq<Document>>,
                                    kinds: seq<string>, t: seq<Object>, t': seq<Object>)
    requires Visits(order, files) && Visits(order', files)
    requires StrictWeakOrder(OrderingOf(kinds), Elements(Gather(order, files)))
    requires NoSharedName(OrderingOf(kinds), Elements(Gather(order, files)))
    requires SortedForm(OrderingOf(kinds), Gather(order, files), t) && SortedForm(OrderingOf(kinds), Gather(order', files), t')
    ensures KindsAndNames(t) == KindsAndNames(t')
  {
    RenderingIgnoresOrder(order, order', files);
    OrderingsHaveOneKindPerRank(kinds);
    AgreementOfTwo(OrderingOf(kinds), Gather(order, files), t, t');
  }
}
