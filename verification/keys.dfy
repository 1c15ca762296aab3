/** Sorted-store keys as the field-index code sees them: a key of the
    key-value store, a range over keys, and a field-index entry parsed out of a
    key. Column qualifiers and families are compared as strings in code-point
    order, which agrees with the byte order of their UTF-8 encodings. */
module Keys {
  import opened Wrappers

  /** The separator between the parts of a field-index column qualifier. */
  const Null: char := '\0'

  /** The largest code point; appended to a qualifier prefix it sorts after every
      qualifier that extends the prefix with ordinary characters. */
  const MaxUnicode: char := '\U{10FFFF}'

  /** A key of the store (visibility and the delete flag are not modelled). */
  datatype Key = Key(row: string, columnFamily: string, columnQualifier: string, timestamp: int)

  /** A range between two keys; an absent end key means the range is unbounded above. */
  datatype Range = Range(start: Key, startInclusive: bool, end: Option<Key>, endInclusive: bool)

  /** A field-index entry, as the key parser reports it: the key
      `row / fi\0FIELD / value\0datatype\0uid`, plus the root uid of the uid
      (the uid of the top-level document the record belongs to). */
  datatype FiKey = FiKey(row: string, field: string, value: string, dataType: string,
                         uid: string, rootUid: string, timestamp: int)

  /** The column family of a field-index entry. */
  function FiColumnFamily(e: FiKey): string
  {
    "fi" + [Null] + e.field
  }

  /** The column qualifier of a field-index entry. */
  function FiColumnQualifier(e: FiKey): string
  {
    e.value + [Null] + e.dataType + [Null] + e.uid
  }

  /** The store key of a field-index entry. */
  function FiKeyToKey(e: FiKey): Key
  {
    Key(e.row, FiColumnFamily(e), FiColumnQualifier(e), e.timestamp)
  }

  /** Strict lexicographic order on strings. */
  predicate LexLess(a: string, b: string)
  {
    if |a| == 0 then |b| > 0
    else if |b| == 0 then false
    else if a[0] != b[0] then a[0] < b[0]
    else LexLess(a[1..], b[1..])
  }

  /** A common prefix does not change the order of two strings. */
  lemma {:induction false} LexLessPrefix(p: string, a: string, b: string)
    ensures LexLess(p + a, p + b) <==> LexLess(a, b)
  {
    if |p| > 0 {
      assert (p + a)[0] == p[0] == (p + b)[0];
      assert (p + a)[1..] == p[1..] + a;
      assert (p + b)[1..] == p[1..] + b;
      LexLessPrefix(p[1..], a, b);
    } else {
      assert p + a == a && p + b == b;
    }
  }

  /** `a` is a prefix of `b`. */
  predicate IsPrefix(a: string, b: string)
  {
    |a| <= |b| && b[..|a|] == a
  }

  /** Agreeing first characters and a prefix after them make a prefix. */
  lemma PrefixCons(a: string, b: string)
    requires |a| > 0 && |b| > 0 && a[0] == b[0] && IsPrefix(a[1..], b[1..])
    ensures IsPrefix(a, b)
  {
    assert b[..|a|] == [b[0]] + b[1..][..|a| - 1];
    assert a == [a[0]] + a[1..];
  }

  /** A string that sorts before `b` without being a prefix of it differs from
      `b` at some position of its own, so anything appended to it still sorts
      before `b`. */
  lemma {:induction false} LexLessExtend(a: string, b: string, c: string)
    requires LexLess(a, b) && !IsPrefix(a, b)
    ensures LexLess(a + c, b)
  {
    assert |a| > 0 && |b| > 0;
    assert (a + c)[0] == a[0];
    if a[0] == b[0] {
      assert (a + c)[1..] == a[1..] + c;
      if IsPrefix(a[1..], b[1..]) {
        PrefixCons(a, b);
      }
      LexLessExtend(a[1..], b[1..], c);
    }
  }

  /** Lexicographic order is irreflexive. */
  lemma {:induction false} LexLessIrreflexive(a: string)
    ensures !LexLess(a, a)
  {
    if |a| > 0 {
      LexLessIrreflexive(a[1..]);
    }
  }
}
