/** The field-index aggregator of top-level-document queries. Starting at the
    current top of a sorted stream of field-index entries, it consumes the run
    of entries that share the first entry's root uid, so that a parent record
    and all its child records become one document, and leaves the first entry
    of the next root at the top of the stream. */
module TldAggregator {
  import opened Wrappers
  import opened Keys

  /** A document attribute built from one entry: its typed data, the key it
      came from, and whether it is to be kept in the returned document. */
  datatype Attribute = Attribute(data: string, source: Key, toKeep: bool)

  /** One insertion into the document: an attribute under a field name, or a
      document-key marker naming the record that contributed fields. */
  datatype Put = FieldPut(field: string, attr: Attribute) | DocKeyPut(recordId: Key)

  /** What the aggregator is configured with and the helpers it calls: the
      fields to keep (None keeps all), the optional keep filter, grouping-context
      removal, the attribute factory, and the parent-key and record-id
      constructions of the base aggregator. */
  datatype Aggregator = Aggregator(
    fieldsToKeep: Option<set<string>>,
    filter: Option<FiKey -> bool>,
    removeGroupingContext: string -> string,
    createData: (string, string, FiKey) -> string,
    parentKey: FiKey -> Key,
    recordId: FiKey -> Key)

  /** Entries of one top-level document: the identity test of this aggregator
      compares root uids only. */
  predicate SameUid(first: FiKey, e: FiKey)
  {
    first.rootUid == e.rootUid
  }

  /** Whether the attribute of `e` is kept. */
  predicate ToKeep(agg: Aggregator, e: FiKey)
  {
    (agg.fieldsToKeep.None? || agg.removeGroupingContext(e.field) in agg.fieldsToKeep.value)
    && (agg.filter.None? || agg.filter.value(e))
  }

  /** Whether consuming `e` in the run started by `first` records a
      document-key marker: `e` is a child record other than the first one, or
      `e` is its own root. */
  predicate AddsDocKey(first: FiKey, e: FiKey)
  {
    first.uid != e.uid || e.rootUid == e.uid
  }

  /** The attribute built for `e`. */
  function MakeAttribute(agg: Aggregator, e: FiKey): Attribute
  {
    Attribute(agg.createData(e.field, e.value, e), FiKeyToKey(e), ToKeep(agg, e))
  }

  /** The puts one consumed entry makes: its attribute, then possibly a marker. */
  function EntryPuts(agg: Aggregator, first: FiKey, e: FiKey): seq<Put>
  {
    [FieldPut(e.field, MakeAttribute(agg, e))] + (if AddsDocKey(first, e) then [DocKeyPut(agg.recordId(e))] else [])
  }

  /** The puts of a run of consumed entries, in stream order. */
  function RunPuts(agg: Aggregator, first: FiKey, es: seq<FiKey>): seq<Put>
  {
    if |es| == 0 then [] else EntryPuts(agg, first, es[0]) + RunPuts(agg, first, es[1..])
  }

  /** Where the run of entries with root uid `root` that begins at `i` ends. */
  function RunEnd(stream: seq<FiKey>, i: nat, root: string): (r: nat)
    requires i <= |stream|
    ensures i <= r <= |stream|
    decreases |stream| - i
  {
    if i < |stream| && stream[i].rootUid == root then RunEnd(stream, i + 1, root) else i
  }

  /** Appending one entry to a run appends its puts. */
  lemma {:induction false} RunPutsSnoc(agg: Aggregator, first: FiKey, es: seq<FiKey>, e: FiKey)
    ensures RunPuts(agg, first, es + [e]) == RunPuts(agg, first, es) + EntryPuts(agg, first, e)
  {
    if |es| == 0 {
      assert es + [e] == [e];
      assert [e][1..] == [];
    } else {
      assert (es + [e])[0] == es[0];
      assert (es + [e])[1..] == es[1..] + [e];
      RunPutsSnoc(agg, first, es[1..], e);
    }
  }

  /** apply: consumes, from `start`, every entry whose root uid is that of the
      entry at `start` (which is always consumed), adds each one's puts to the
      document, stops at the first entry of another root without consuming it,
      and returns the parent key of the first entry. */
  method Apply(agg: Aggregator, stream: seq<FiKey>, start: nat, doc: seq<Put>)
    returns (parent: Key, next: nat, out: seq<Put>)
    requires start < |stream|
    ensures start < next <= |stream|
    ensures forall j :: start <= j < next ==> SameUid(stream[start], stream[j])
    ensures next < |stream| ==> !SameUid(stream[start], stream[next])
    ensures next == RunEnd(stream, start, stream[start].rootUid)
    ensures out == doc + RunPuts(agg, stream[start], stream[start..next])
    ensures parent == agg.parentKey(stream[start])
  {
    var first := stream[start];
    parent := agg.parentKey(first);
    out := doc;
    next := start;
    while next < |stream| && SameUid(first, stream[next])
      invariant start <= next <= |stream|
      invariant forall j :: start <= j < next ==> SameUid(first, stream[j])
      invariant RunEnd(stream, next, first.rootUid) == RunEnd(stream, start, first.rootUid)
      invariant out == doc + RunPuts(agg, first, stream[start..next])
      decreases |stream| - next
    {
      RunPutsSnoc(agg, first, stream[start..next], stream[next]);
      assert stream[start..next + 1] == stream[start..next] + [stream[next]];
      out := out + EntryPuts(agg, first, stream[next]);
      next := next + 1;
    }
  }

  /** The attributes a run puts, in stream order. */
  function FieldPuts(ps: seq<Put>): seq<Put>
  {
    if |ps| == 0 then [] else (if ps[0].FieldPut? then [ps[0]] else []) + FieldPuts(ps[1..])
  }

  lemma {:induction false} FieldPutsAppend(a: seq<Put>, b: seq<Put>)
    ensures FieldPuts(a + b) == FieldPuts(a) + FieldPuts(b)
  {
    if |a| == 0 {
      assert a + b == b;
    } else {
      assert (a + b)[0] == a[0];
      assert (a + b)[1..] == a[1..] + b;
      FieldPutsAppend(a[1..], b);
    }
  }

  /** Each consumed entry puts exactly one attribute, under its own field name,
      and the attributes appear in stream order. */
  lemma {:induction false} OneAttributePerEntry(agg: Aggregator, first: FiKey, es: seq<FiKey>)
    ensures |FieldPuts(RunPuts(agg, first, es))| == |es|
    ensures forall i :: 0 <= i < |es| ==>
      FieldPuts(RunPuts(agg, first, es))[i] == FieldPut(es[i].field, MakeAttribute(agg, es[i]))
  {
    if |es| > 0 {
      var e := es[0];
      OneAttributePerEntry(agg, first, es[1..]);
      FieldPutsAppend(EntryPuts(agg, first, e), RunPuts(agg, first, es[1..]));
      var tail := if AddsDocKey(first, e) then [DocKeyPut(agg.recordId(e))] else [];
      FieldPutsAppend([FieldPut(e.field, MakeAttribute(agg, e))], tail);
      assert FieldPuts(tail) == [] by {
        if AddsDocKey(first, e) {
          assert tail[1..] == [];
        }
      }
      assert [FieldPut(e.field, MakeAttribute(agg, e))][1..] == [];
    }
  }

  /** A child record whose uid differs from the first entry's always leaves a
      document-key marker naming it. */
  lemma {:induction false} ChildRecordMarked(agg: Aggregator, first: FiKey, es: seq<FiKey>, i: nat)
    requires i < |es| && es[i].uid != first.uid
    ensures DocKeyPut(agg.recordId(es[i])) in RunPuts(agg, first, es)
  {
    if i == 0 {
      assert EntryPuts(agg, first, es[0])[1] == DocKeyPut(agg.recordId(es[0]));
    } else {
      ChildRecordMarked(agg, first, es[1..], i - 1);
    }
  }

  /** The first entry of a run leaves a marker exactly when it is a top-level
      record, i.e. its own root. */
  lemma FirstEntryMarker(agg: Aggregator, first: FiKey)
    ensures |EntryPuts(agg, first, first)| == 2 <==> first.rootUid == first.uid
  {
  }

  /** With neither a keep set nor a filter every attribute is kept; with both,
      an attribute is kept iff its ungrouped field is in the keep set and the
      filter keeps the entry. */
  lemma KeepFlag(agg: Aggregator, e: FiKey)
    ensures agg.fieldsToKeep.None? && agg.filter.None? ==> MakeAttribute(agg, e).toKeep
    ensures agg.fieldsToKeep.Some? && agg.filter.Some? ==>
      (MakeAttribute(agg, e).toKeep <==>
        agg.removeGroupingContext(e.field) in agg.fieldsToKeep.value && agg.filter.value(e))
    ensures agg.fieldsToKeep.None? && agg.filter.Some? ==> (MakeAttribute(agg, e).toKeep <==> agg.filter.value(e))
    ensures agg.fieldsToKeep.Some? && agg.filter.None? ==>
      (MakeAttribute(agg, e).toKeep <==> agg.removeGroupingContext(e.field) in agg.fieldsToKeep.value)
  {
  }

  /** A run over the root uids [A, A, A, B] (uids A.1, A.1, A.2, B.1) stops at
      index 3: the two child records of A merge into one document and B.1
      starts the next. */
  lemma MergedChildrenExample(r: string, ts: int)
    ensures var a1 := FiKey(r, "F", "v", "dt", "A.1", "A", ts);
            var a2 := FiKey(r, "F", "v", "dt", "A.2", "A", ts);
            var b1 := FiKey(r, "F", "v", "dt", "B.1", "B", ts);
            RunEnd([a1, a1, a2, b1], 0, "A") == 3
  {
    var a1 := FiKey(r, "F", "v", "dt", "A.1", "A", ts);
    var a2 := FiKey(r, "F", "v", "dt", "A.2", "A", ts);
    var b1 := FiKey(r, "F", "v", "dt", "B.1", "B", ts);
    var s := [a1, a1, a2, b1];
    assert s[3].rootUid != "A" by {
      assert s[3].rootUid[0] == 'B';
    }
    assert RunEnd(s, 3, "A") == 3;
    assert RunEnd(s, 0, "A") == RunEnd(s, 1, "A") == RunEnd(s, 2, "A") == RunEnd(s, 3, "A");
  }

  // ---------------------------------------------------------------------------
  // Seek range

  /** The range that skips the rest of the current top-level document for this
      value and datatype: it starts just after `value\0datatype\0rootUid`
      followed by the largest code point, exclusive, at timestamp 0, and keeps
      the end of the given range. */
  function GetSeekRange(e: FiKey, range: Range): (r: Range)
    ensures r.start.row == e.row && r.start.columnFamily == FiColumnFamily(e)
    ensures r.start.columnQualifier == e.value + [Null] + e.dataType + [Null] + e.rootUid + [MaxUnicode]
    ensures r.start.timestamp == 0 && !r.startInclusive
    ensures r.end == range.end && r.endInclusive == range.endInclusive
  {
    var cq := e.value + [Null] + e.dataType + [Null] + e.rootUid + [MaxUnicode];
    Range(Key(e.row, FiColumnFamily(e), cq, 0), false, range.end, range.endInclusive)
  }

  /** Every entry of the same field, value, datatype and top-level document
      sorts before the seek start: its uid is the root uid, or the root uid
      followed by a character other than the largest code point. */
  lemma {:induction false} SeekSkipsSameDocument(e: FiKey, other: FiKey, suffix: string, range: Range)
    requires other.row == e.row && other.field == e.field && other.value == e.value && other.dataType == e.dataType
    requires other.uid == e.rootUid + suffix
    requires suffix == [] || suffix[0] != MaxUnicode
    ensures FiColumnFamily(other) == GetSeekRange(e, range).start.columnFamily
    ensures LexLess(FiColumnQualifier(other), GetSeekRange(e, range).start.columnQualifier)
  {
    var p := e.value + [Null] + e.dataType + [Null] + e.rootUid;
    assert FiColumnQualifier(other) == p + suffix;
    assert GetSeekRange(e, range).start.columnQualifier == p + [MaxUnicode];
    LexLessPrefix(p, suffix, [MaxUnicode]);
  }

  /** Every entry of the same field, value and datatype whose uid sorts after
      the root uid without extending it sorts after the seek start: the seek
      never skips past it. */
  lemma SeekKeepsLaterUids(e: FiKey, other: FiKey, range: Range)
    requires other.row == e.row && other.field == e.field && other.value == e.value && other.dataType == e.dataType
    requires LexLess(e.rootUid, other.uid) && !IsPrefix(e.rootUid, other.uid)
    ensures FiColumnFamily(other) == GetSeekRange(e, range).start.columnFamily
    ensures LexLess(GetSeekRange(e, range).start.columnQualifier, FiColumnQualifier(other))
  {
    var p := e.value + [Null] + e.dataType + [Null];
    LexLessExtend(e.rootUid, other.uid, [MaxUnicode]);
    LexLessPrefix(p, e.rootUid + [MaxUnicode], other.uid);
    assert GetSeekRange(e, range).start.columnQualifier == p + (e.rootUid + [MaxUnicode]);
    assert FiColumnQualifier(other) == p + other.uid;
  }

  /** The seek also skips another top-level document whose root uid merely
      begins with the current one: after root uid "A", the entries of root "AB"
      sort before the seek start. */
  lemma SeekSkipsExtendedRoot(range: Range)
    ensures var e := FiKey("r", "F", "v", "dt", "A", "A", 0);
            var o := FiKey("r", "F", "v", "dt", "AB", "AB", 0);
            !SameUid(e, o) && LexLess(FiColumnQualifier(o), GetSeekRange(e, range).start.columnQualifier)
  {
    var e := FiKey("r", "F", "v", "dt", "A", "A", 0);
    var o := FiKey("r", "F", "v", "dt", "AB", "AB", 0);
    assert o.uid == e.rootUid + "B";
    SeekSkipsSameDocument(e, o, "B", range);
  }

  // ---------------------------------------------------------------------------
  // Seek range bounded by the child separator

  /** Child records extend their parent's uid with this separator and a suffix. */
  const ChildSeparator: char := '.'

  /** The seek range that stops at the end of the current top-level document:
      it starts just after `value\0datatype\0rootUid.` followed by the largest
      code point, so it covers the root record and the uids `rootUid.…` of its
      children and nothing that only extends the root uid with another
      character. */
  function GetDocumentSeekRange(e: FiKey, range: Range): (r: Range)
    ensures r.start.row == e.row && r.start.columnFamily == FiColumnFamily(e)
    ensures r.start.columnQualifier == e.value + [Null] + e.dataType + [Null] + e.rootUid + [ChildSeparator, MaxUnicode]
    ensures r.start.timestamp == 0 && !r.startInclusive
    ensures r.end == range.end && r.endInclusive == range.endInclusive
  {
    var cq := e.value + [Null] + e.dataType + [Null] + e.rootUid + [ChildSeparator, MaxUnicode];
    Range(Key(e.row, FiColumnFamily(e), cq, 0), false, range.end, range.endInclusive)
  }

  /** The root record and every child record of the current document sort
      before the start of the bounded seek. */
  lemma DocumentSeekSkipsDocument(e: FiKey, other: FiKey, suffix: string, range: Range)
    requires other.row == e.row && other.field == e.field && other.value == e.value && other.dataType == e.dataType
    requires other.uid == e.rootUid || other.uid == e.rootUid + [ChildSeparator] + suffix
    requires suffix == [] || suffix[0] != MaxUnicode
    ensures FiColumnFamily(other) == GetDocumentSeekRange(e, range).start.columnFamily
    ensures LexLess(FiColumnQualifier(other), GetDocumentSeekRange(e, range).start.columnQualifier)
  {
    var p := e.value + [Null] + e.dataType + [Null] + e.rootUid;
    assert GetDocumentSeekRange(e, range).start.columnQualifier == p + [ChildSeparator, MaxUnicode];
    if other.uid == e.rootUid {
      assert FiColumnQualifier(other) == p + [];
      LexLessPrefix(p, [], [ChildSeparator, MaxUnicode]);
    } else {
      var q := p + [ChildSeparator];
      assert FiColumnQualifier(other) == q + suffix;
      assert p + [ChildSeparator, MaxUnicode] == q + [MaxUnicode];
      LexLessPrefix(q, suffix, [MaxUnicode]);
    }
  }

  /** An entry whose uid extends the root uid with a character above the child
      separator (another top-level document) sorts after the start of the
      bounded seek, so that seek keeps it. */
  lemma DocumentSeekKeepsOtherRoots(e: FiKey, other: FiKey, c: char, suffix: string, range: Range)
    requires other.row == e.row && other.field == e.field && other.value == e.value && other.dataType == e.dataType
    requires other.uid == e.rootUid + [c] + suffix && c > ChildSeparator
    ensures FiColumnFamily(other) == GetDocumentSeekRange(e, range).start.columnFamily
    ensures LexLess(GetDocumentSeekRange(e, range).start.columnQualifier, FiColumnQualifier(other))
  {
    var p := e.value + [Null] + e.dataType + [Null] + e.rootUid;
    assert GetDocumentSeekRange(e, range).start.columnQualifier == p + [ChildSeparator, MaxUnicode];
    assert FiColumnQualifier(other) == p + ([c] + suffix);
    LexLessPrefix(p, [ChildSeparator, MaxUnicode], [c] + suffix);
  }

  /** The bounded seek keeps the entries of root "AB" after root "A". */
  lemma DocumentSeekKeepsExtendedRoot(range: Range)
    ensures var e := FiKey("r", "F", "v", "dt", "A", "A", 0);
            var o := FiKey("r", "F", "v", "dt", "AB", "AB", 0);
            LexLess(GetDocumentSeekRange(e, range).start.columnQualifier, FiColumnQualifier(o))
  {
    var e := FiKey("r", "F", "v", "dt", "A", "A", 0);
    var o := FiKey("r", "F", "v", "dt", "AB", "AB", 0);
    assert o.uid == e.rootUid + ['B'] + "";
    DocumentSeekKeepsOtherRoots(e, o, 'B', "", range);
  }
}
