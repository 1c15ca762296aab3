/** Comparison of document attributes by their data alone: whether two
    attributes, or some members of two attribute collections, carry equal data
    whatever their other metadata. */
module FuzzyCompare {
  import opened Wrappers

  /** An attribute: its typed data and the metadata that the comparison ignores. */
  datatype Attribute<D> = Attribute(data: D, metadata: string)

  /** singleToSingle: the data are equal. */
  predicate SingleToSingle<D(==)>(existing: Attribute<D>, added: Attribute<D>)
  {
    existing.data == added.data
  }

  /** singleToMultiple: some member of the collection has the single attribute's data. */
  function SingleToMultiple<D(==)>(multiple: seq<Attribute<D>>, single: Attribute<D>): (r: bool)
    ensures r <==> exists i :: 0 <= i < |multiple| && multiple[i].data == single.data
    ensures |multiple| == 0 ==> !r
  {
    if |multiple| == 0 then false
    else if multiple[0].data == single.data then true
    else
      var rest := SingleToMultiple(multiple[1..], single);
      assert forall i :: 1 <= i < |multiple| ==> multiple[i] == multiple[1..][i - 1];
      assert rest ==> exists i :: 0 <= i < |multiple| && multiple[i].data == single.data by {
        if rest {
          var i :| 0 <= i < |multiple[1..]| && multiple[1..][i].data == single.data;
          assert multiple[i + 1].data == single.data;
        }
      }
      rest
  }

  /** Whether some pair of an existing and a new attribute carries equal data. */
  ghost predicate SomeEqualData<D>(existing: seq<Attribute<D>>, added: seq<Attribute<D>>)
  {
    exists i, j :: 0 <= i < |existing| && 0 <= j < |added| && existing[i].data == added[j].data
  }

  /** multipleToMultiple: every new attribute is checked against the existing
      ones, and the answer is whether any of them matched. */
  method MultipleToMultiple<D(==)>(existing: seq<Attribute<D>>, added: seq<Attribute<D>>) returns (containsMatch: bool)
    ensures containsMatch <==> SomeEqualData(existing, added)
    ensures |existing| == 0 || |added| == 0 ==> !containsMatch
  {
    containsMatch := false;
    var k := 0;
    while k < |added|
      invariant 0 <= k <= |added|
      invariant containsMatch <==> exists i, j :: 0 <= i < |existing| && 0 <= j < k && existing[i].data == added[j].data
    {
      var tempMatch := SingleToMultiple(existing, added[k]);
      if tempMatch {
        containsMatch := true;
      }
      k := k + 1;
    }
  }

  /** The match over two collections is symmetric in them. */
  lemma SomeEqualDataSymmetric<D>(existing: seq<Attribute<D>>, added: seq<Attribute<D>>)
    ensures SomeEqualData(existing, added) <==> SomeEqualData(added, existing)
  {
    if SomeEqualData(existing, added) {
      var i, j :| 0 <= i < |existing| && 0 <= j < |added| && existing[i].data == added[j].data;
      assert added[j].data == existing[i].data;
    }
    if SomeEqualData(added, existing) {
      var j, i :| 0 <= j < |added| && 0 <= i < |existing| && added[j].data == existing[i].data;
      assert existing[i].data == added[j].data;
    }
  }

  /** Matching one attribute against a collection is matching the singleton
      collection holding it. */
  lemma SingleIsSingletonMultiple<D>(multiple: seq<Attribute<D>>, single: Attribute<D>)
    ensures SingleToMultiple(multiple, single) <==> SomeEqualData(multiple, [single])
  {
    if SingleToMultiple(multiple, single) {
      var i :| 0 <= i < |multiple| && multiple[i].data == single.data;
      assert [single][0] == single;
    }
  }

  /** Matching one attribute against a one-element collection is singleToSingle. */
  lemma SingletonIsSingle<D>(existing: Attribute<D>, single: Attribute<D>)
    ensures SingleToMultiple([existing], single) <==> SingleToSingle(existing, single)
  {
    assert [existing][0] == existing;
  }

  /** combineAttributes: never combines, the result is always null. */
  function CombineAttributes<D>(prenormalized: Attribute<D>, content: Attribute<D>): (r: Option<Attribute<D>>)
    ensures r.None?
  {
    None
  }
}
