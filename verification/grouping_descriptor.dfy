/** The argument descriptor of the grouping functions (atomValuesMatch,
    matchesInGroup, matchesInGroupLeft, getGroupsForMatchesInGroup).
    Arguments are read positionally as (field expression, value pattern) pairs,
    a trailing odd argument being a position argument rather than a field;
    atomValuesMatch instead treats every argument as a field that accepts all
    values. None of these functions can narrow the index. */
module GroupingDescriptor {
  import opened Wrappers
  import opened Jexl

  const AtomValuesMatch: string := "atomValuesMatch"

  /** The functions this descriptor serves. */
  const GroupingRequiredFunctions: set<string> :=
    {"atomValuesMatch", "matchesInGroup", "matchesInGroupLeft", "getGroupsForMatchesInGroup"}

  /** The index query a descriptor contributes. */
  datatype IndexQuery = TrueNode

  /** The descriptor wraps the function-call node it was built for. */
  datatype Descriptor = Descriptor(call: FunctionCall)

  /** The factory: only a node whose namespace resolves to the grouping
      function class gets this descriptor; an unresolvable class is an error too. */
  function GetArgumentDescriptor(call: FunctionCall, functionClass: Option<FunctionClass>): (r: Result<Descriptor, DescriptorError>)
    ensures r.Success? <==> functionClass == Some(GroupingRequiredFilterFunctions)
    ensures r.Success? ==> r.value.call == call
    ensures functionClass.None? ==> r == Failure(ClassNotFound)
  {
    match functionClass
    case None => Failure(ClassNotFound)
    case Some(c) =>
      if c != GroupingRequiredFilterFunctions then Failure(WrongFunctionClass(c))
      else Success(Descriptor(call))
  }

  /** No range lookup is possible for a grouping function: whatever the
      arguments and the datatype filter, the index query is the constant TRUE. */
  function GetIndexQuery(d: Descriptor, datatypeFilter: Option<set<string>>): (r: IndexQuery)
    ensures r == TrueNode
  {
    TrueNode
  }

  // ---------------------------------------------------------------------------
  // Field sets

  /** Field names of the argument positions i, i+2, ... strictly below |args| - 1:
      the field halves of the (field, value) pairs starting at i. */
  function PairedFieldNames(args: seq<Operand>, i: nat): set<string>
    decreases |args| - i
  {
    if i < |args| - 1 then IdentifierNames(args[i]) + PairedFieldNames(args, i + 2) else {}
  }

  /** A field is paired from i exactly when the argument at some even offset
      from i, before the last argument, names it. */
  lemma {:induction false} PairedFieldNamesSpec(args: seq<Operand>, i: nat, f: string)
    ensures f in PairedFieldNames(args, i) <==>
      exists k: nat :: i + 2 * k < |args| - 1 && f in IdentifierNames(args[i + 2 * k])
    decreases |args| - i
  {
    if i < |args| - 1 {
      PairedFieldNamesSpec(args, i + 2, f);
      if f in IdentifierNames(args[i]) {
        assert i + 2 * 0 == i;
      } else if f in PairedFieldNames(args, i + 2) {
        var k: nat :| i + 2 + 2 * k < |args| - 1 && f in IdentifierNames(args[i + 2 + 2 * k]);
        assert i + 2 * (k + 1) == i + 2 + 2 * k;
      } else {
        forall k: nat | i + 2 * k < |args| - 1 ensures f !in IdentifierNames(args[i + 2 * k]) {
          if k > 0 {
            assert i + 2 + 2 * (k - 1) == i + 2 * k;
          }
        }
      }
    }
  }

  /** Field names of every argument (the atomValuesMatch reading). */
  function AllArgumentFieldNames(args: seq<Operand>): (r: set<string>)
    ensures forall f :: f in r <==> exists j :: 0 <= j < |args| && f in IdentifierNames(args[j])
  {
    if |args| == 0 then {}
    else
      var rest := AllArgumentFieldNames(args[1..]);
      assert forall j :: 1 <= j < |args| ==> args[j] == args[1..][j - 1];
      IdentifierNames(args[0]) + rest
  }

  /** The fields the function reads before filtering against the schema. */
  function DeclaredFields(call: FunctionCall): set<string>
  {
    if call.name == AtomValuesMatch then AllArgumentFieldNames(call.args) else PairedFieldNames(call.args, 0)
  }

  /** Keeps exactly the given fields that exist in the schema (copy of
      `allFields` retaining `fields`). */
  function FilterFields(allFields: set<string>, fields: set<string>): (r: set<string>)
    ensures forall f :: f in r <==> f in allFields && f in fields
  {
    allFields * fields
  }

  /** Adds one field to `acc` when it exists in the schema. */
  function FilterField(allFields: set<string>, field: string, acc: set<string>): (r: set<string>)
    ensures field in allFields ==> r == acc + {field}
    ensures field !in allFields ==> r == acc
  {
    if field in allFields then acc + {field} else acc
  }

  /** The fields of the call that exist for the datatype filter: for
      atomValuesMatch the identifiers of every argument, otherwise only those of
      the even positions below the last, so a trailing odd argument is never a
      field. */
  function Fields(d: Descriptor, allFields: set<string>): (r: set<string>)
    ensures r <= allFields
    ensures d.call.name == AtomValuesMatch ==> forall f :: f in r <==>
      f in allFields && exists j :: 0 <= j < |d.call.args| && f in IdentifierNames(d.call.args[j])
    ensures d.call.name != AtomValuesMatch ==> forall f :: f in r <==>
      f in allFields && exists k: nat :: 2 * k < |d.call.args| - 1 && f in IdentifierNames(d.call.args[2 * k])
  {
    assert d.call.name != AtomValuesMatch ==> forall f :: f in DeclaredFields(d.call) <==>
      exists k: nat :: 2 * k < |d.call.args| - 1 && f in IdentifierNames(d.call.args[2 * k]) by {
      forall f ensures f in PairedFieldNames(d.call.args, 0) <==>
        exists k: nat :: 2 * k < |d.call.args| - 1 && f in IdentifierNames(d.call.args[2 * k])
      {
        PairedFieldNamesSpec(d.call.args, 0, f);
        if f in PairedFieldNames(d.call.args, 0) {
          var k: nat :| 0 + 2 * k < |d.call.args| - 1 && f in IdentifierNames(d.call.args[0 + 2 * k]);
          assert 2 * k < |d.call.args| - 1 && f in IdentifierNames(d.call.args[2 * k]);
        } else {
          forall k: nat | 2 * k < |d.call.args| - 1 ensures f !in IdentifierNames(d.call.args[2 * k]) {
            assert 0 + 2 * k == 2 * k;
          }
        }
      }
    }
    FilterFields(allFields, DeclaredFields(d.call))
  }

  /** Adds each field of `fields` that exists in `allFields`, one at a time. */
  function FilterEach(allFields: set<string>, fields: seq<string>, acc: set<string>): (r: set<string>)
    ensures forall f :: f in r <==> f in acc || (f in allFields && f in fields)
  {
    if |fields| == 0 then acc
    else
      var rest := FilterEach(allFields, fields[1..], FilterField(allFields, fields[0], acc));
      assert forall f :: f in fields <==> f == fields[0] || f in fields[1..];
      rest
  }

  /** Java's `arg % 2 == 1`: the remainder truncates toward zero, so it holds
      only for positive odd `arg`. */
  predicate JavaOdd(arg: int)
  {
    arg > 0 && arg % 2 == 1
  }

  /** The fields whose values argument `arg` normalises against: for an odd
      argument of a non-atomValuesMatch function, the schema fields named by the
      preceding argument; otherwise none. An index past the argument list is an
      error, as `List.get` is in the source. */
  function FieldsForNormalization(d: Descriptor, allFields: set<string>, arg: int): (r: Result<set<string>, DescriptorError>)
    ensures r.Success? ==> r.value <= allFields
    ensures r.Success? && r.value != {} ==> d.call.name != AtomValuesMatch && JavaOdd(arg)
    ensures d.call.name != AtomValuesMatch && JavaOdd(arg) && arg - 1 < |d.call.args| ==>
      r == Success(IdentifierNames(d.call.args[arg - 1]) * allFields)
    ensures r.Failure? <==> d.call.name != AtomValuesMatch && JavaOdd(arg) && arg - 1 >= |d.call.args|
  {
    if d.call.name != AtomValuesMatch && JavaOdd(arg) then
      if arg - 1 < |d.call.args| then
        var r := FilterEach(allFields, Identifiers(d.call.args[arg - 1]), {});
        assert r == IdentifierNames(d.call.args[arg - 1]) * allFields;
        Success(r)
      else Failure(ArgumentIndexOutOfBounds(arg - 1))
    else Success({})
  }

  // ---------------------------------------------------------------------------
  // Filters

  /** The filter registered for `field`, or a new one when there is none. */
  function FilterFor(m: FilterMap, field: string): ExpressionFilter
  {
    if field in m then m[field] else NewFilter(field)
  }

  /** Every field of `fields` gets its filter (existing or new) set to accept all values. */
  function AcceptAllValues(m: FilterMap, fields: set<string>): (r: FilterMap)
    ensures r.Keys == m.Keys + fields
    ensures forall f :: f in fields ==> r[f] == FilterFor(m, f).(acceptAll := true)
    ensures forall f :: f in m && f !in fields ==> r[f] == m[f]
  {
    map f | f in m.Keys + fields :: if f in fields then FilterFor(m, f).(acceptAll := true) else m[f]
  }

  /** Every field of `fields` gets the pattern appended to its filter (existing or new). */
  function AddFieldPattern(m: FilterMap, fields: set<string>, pattern: Option<string>): (r: FilterMap)
    ensures r.Keys == m.Keys + fields
    ensures forall f :: f in fields ==> r[f] == FilterFor(m, f).(patterns := FilterFor(m, f).patterns + [pattern])
    ensures forall f :: f in m && f !in fields ==> r[f] == m[f]
  {
    map f | f in m.Keys + fields ::
      if f in fields then FilterFor(m, f).(patterns := FilterFor(m, f).patterns + [pattern]) else m[f]
  }

  /** The pairs loop: for i = start, start+2, ... below |args| - 1, the image of
      argument i+1 becomes a pattern of every field of argument i. */
  function AddPairs(args: seq<Operand>, i: nat, m: FilterMap): FilterMap
    decreases |args| - i
  {
    if i < |args| - 1 then AddPairs(args, i + 2, AddFieldPattern(m, IdentifierNames(args[i]), Image(args[i + 1])))
    else m
  }

  /** Registers the post-scan filters of the call. */
  function AddFilters(d: Descriptor, m: FilterMap): FilterMap
  {
    if d.call.name == AtomValuesMatch then AcceptAllValues(m, AllArgumentFieldNames(d.call.args))
    else AddPairs(d.call.args, 0, m)
  }

  /** The patterns a field receives from the pairs starting at i, in pair order. */
  function PatternsFor(args: seq<Operand>, i: nat, f: string): seq<Option<string>>
    decreases |args| - i
  {
    if i < |args| - 1 then
      (if f in IdentifierNames(args[i]) then [Image(args[i + 1])] else []) + PatternsFor(args, i + 2, f)
    else []
  }

  /** A filter with more value patterns appended. */
  function Appended(flt: ExpressionFilter, ps: seq<Option<string>>): ExpressionFilter
  {
    flt.(patterns := flt.patterns + ps)
  }

  /** Per-field view of one pattern addition. */
  lemma AddFieldPatternAt(m: FilterMap, fields: set<string>, p: Option<string>, f: string)
    ensures f in AddFieldPattern(m, fields, p) <==> f in m || f in fields
    ensures FilterFor(AddFieldPattern(m, fields, p), f) ==
      if f in fields then Appended(FilterFor(m, f), [p]) else FilterFor(m, f)
  {
  }

  /** The pairs loop maps a field iff it was already mapped or some pair names it. */
  lemma {:induction false} AddPairsKeys(args: seq<Operand>, i: nat, m: FilterMap, f: string)
    ensures f in AddPairs(args, i, m) <==> f in m || f in PairedFieldNames(args, i)
    decreases |args| - i
  {
    if i < |args| - 1 {
      var m' := AddFieldPattern(m, IdentifierNames(args[i]), Image(args[i + 1]));
      AddPairsKeys(args, i + 2, m', f);
      AddFieldPatternAt(m, IdentifierNames(args[i]), Image(args[i + 1]), f);
    }
  }

  /** Per-field view of the pairs loop: the field's filter (the existing one, or
      a new one) ends up with the value patterns of its pairs appended in order. */
  lemma {:induction false} AddPairsAt(args: seq<Operand>, i: nat, m: FilterMap, f: string)
    ensures FilterFor(AddPairs(args, i, m), f) == Appended(FilterFor(m, f), PatternsFor(args, i, f))
    decreases |args| - i
  {
    if i < |args| - 1 {
      var p := Image(args[i + 1]);
      var m' := AddFieldPattern(m, IdentifierNames(args[i]), p);
      AddPairsAt(args, i + 2, m', f);
      AddFieldPatternAt(m, IdentifierNames(args[i]), p, f);
      assert FilterFor(AddPairs(args, i, m), f) == FilterFor(AddPairs(args, i + 2, m'), f);
      var flt := FilterFor(m, f);
      var rest := PatternsFor(args, i + 2, f);
      if f in IdentifierNames(args[i]) {
        assert PatternsFor(args, i, f) == [p] + rest;
        assert FilterFor(m', f) == Appended(flt, [p]);
        AppendedTwice(flt, [p], rest);
        assert FilterFor(AddPairs(args, i, m), f) == Appended(Appended(flt, [p]), rest);
      } else {
        assert PatternsFor(args, i, f) == rest;
        assert FilterFor(m', f) == flt;
        assert FilterFor(AddPairs(args, i, m), f) == Appended(flt, rest);
      }
    } else {
      assert PatternsFor(args, i, f) == [];
      AppendedNothing(FilterFor(m, f));
    }
  }

  lemma AppendedTwice(flt: ExpressionFilter, ps: seq<Option<string>>, qs: seq<Option<string>>)
    ensures Appended(Appended(flt, ps), qs) == Appended(flt, ps + qs)
  {
    assert flt.patterns + ps + qs == flt.patterns + (ps + qs);
  }

  lemma AppendedNothing(flt: ExpressionFilter)
    ensures Appended(flt, []) == flt
  {
    assert flt.patterns + [] == flt.patterns;
  }

  /** addFilters for a pair-reading function: the map's keys grow by exactly the
      paired fields, every paired field's filter (existing or new) gains the
      patterns of its pairs in order, and the filters of all other fields are
      untouched. */
  lemma AddFiltersPairs(d: Descriptor, m: FilterMap)
    requires d.call.name != AtomValuesMatch
    ensures AddFilters(d, m).Keys == m.Keys + PairedFieldNames(d.call.args, 0)
    ensures forall f :: f in m && f !in PairedFieldNames(d.call.args, 0) ==> AddFilters(d, m)[f] == m[f]
    ensures forall f :: f in PairedFieldNames(d.call.args, 0) ==>
      AddFilters(d, m)[f] == Appended(FilterFor(m, f), PatternsFor(d.call.args, 0, f))
  {
    var r := AddFilters(d, m);
    forall f ensures f in r <==> f in m || f in PairedFieldNames(d.call.args, 0) {
      AddPairsKeys(d.call.args, 0, m, f);
    }
    forall f | f in m && f !in PairedFieldNames(d.call.args, 0) ensures r[f] == m[f] {
      AddPairsKeys(d.call.args, 0, m, f);
      AddPairsAt(d.call.args, 0, m, f);
      PatternsForOutsidePairs(d.call.args, 0, f);
      assert m[f].patterns + [] == m[f].patterns;
    }
    forall f | f in PairedFieldNames(d.call.args, 0)
      ensures r[f] == Appended(FilterFor(m, f), PatternsFor(d.call.args, 0, f))
    {
      AddPairsKeys(d.call.args, 0, m, f);
      AddPairsAt(d.call.args, 0, m, f);
    }
  }

  /** A field that no pair names receives no pattern. */
  lemma {:induction false} PatternsForOutsidePairs(args: seq<Operand>, i: nat, f: string)
    requires f !in PairedFieldNames(args, i)
    ensures PatternsFor(args, i, f) == []
    decreases |args| - i
  {
    if i < |args| - 1 {
      assert PairedFieldNames(args, i) == IdentifierNames(args[i]) + PairedFieldNames(args, i + 2);
      PatternsForOutsidePairs(args, i + 2, f);
    }
  }

  /** addFilters for atomValuesMatch: every argument's fields get a filter that
      accepts all values, reusing an existing entry; nothing else changes. */
  lemma AddFiltersAtom(d: Descriptor, m: FilterMap)
    requires d.call.name == AtomValuesMatch
    ensures AddFilters(d, m).Keys == m.Keys + DeclaredFields(d.call)
    ensures forall f :: f in DeclaredFields(d.call) ==> AddFilters(d, m)[f].acceptAll
    ensures forall f :: f in DeclaredFields(d.call) && f in m ==> AddFilters(d, m)[f] == m[f].(acceptAll := true)
    ensures forall f :: f in m && f !in DeclaredFields(d.call) ==> AddFilters(d, m)[f] == m[f]
  {
  }

  /** Pairs starting at an even distance from the end do not see one more argument. */
  lemma {:induction false} PairedIgnoresTrailing(args: seq<Operand>, i: nat, extra: Operand)
    requires (|args| - i) % 2 == 0
    ensures PairedFieldNames(args + [extra], i) == PairedFieldNames(args, i)
    decreases |args| - i
  {
    var args' := args + [extra];
    if i < |args| - 1 {
      assert args'[i] == args[i];
      PairedIgnoresTrailing(args, i + 2, extra);
      assert PairedFieldNames(args', i) == IdentifierNames(args'[i]) + PairedFieldNames(args', i + 2);
    } else {
      assert !(i < |args'| - 1);
    }
  }

  /** A trailing odd argument is never a field: appending one more argument to
      an even-length list of a pair-reading function leaves its fields unchanged. */
  lemma TrailingArgumentIsNotAField(call: FunctionCall, extra: Operand, allFields: set<string>)
    requires call.name != AtomValuesMatch && |call.args| % 2 == 0
    ensures Fields(Descriptor(call.(args := call.args + [extra])), allFields) == Fields(Descriptor(call), allFields)
  {
    PairedIgnoresTrailing(call.args, 0, extra);
  }

  // ---------------------------------------------------------------------------
  // Capability flags

  /** Expansion of the function's fields uses OR. */
  predicate UseOrForExpansion(d: Descriptor)
    ensures UseOrForExpansion(d)
  {
    true
  }

  /** The arguments are not regular expressions. */
  predicate RegexArguments(d: Descriptor)
    ensures !RegexArguments(d)
  {
    false
  }

  /** The function may be evaluated by ivarator filtering. */
  predicate AllowIvaratorFiltering(d: Descriptor)
    ensures AllowIvaratorFiltering(d)
  {
    true
  }
}
