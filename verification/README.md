# Query planning core, modelled in Dafny

This project models the sequential core of a query planner and its companions
over a sorted key-value store: the parts that decide which query fields exist,
which fields a query function reads and which post-scan filters it registers,
how field-index entries of a parent record and its children are folded into one
document, how per-field value predicates are consulted, how configured edge
definitions are pruned, and how a query tree is printed back as indented text.
Everything is pure: collaborators that the core calls (metadata lookups, the
identifier helpers of the query tree, attribute factories, the per-field value
predicates, the geometry parser) are parameters.

| file | module | what it models |
|---|---|---|
| wrappers.dfy | Wrappers | Option and Result |
| jexl.dfy | Jexl | operands, function calls and post-scan filter configuration of the query tree |
| schema_check.dfy | SchemaCheck | the walk that reports fields missing from the schema |
| grouping_descriptor.dfy | GroupingDescriptor | the argument descriptor of the grouping functions |
| geowave_descriptor.dfy | GeoWaveDescriptor | the argument descriptor of the GeoWave functions |
| regex_lookup.dfy | RegexLookup | the gate that refuses match-everything regular expressions |
| keys.dfy | Keys | store keys, ranges, field-index keys and the order of column qualifiers |
| tld_aggregator.dfy | TldAggregator | the top-level-document field-index aggregator and its seek range |
| expression_filter.dfy | ExpressionFilter | the event-data expression filter as a state machine |
| fuzzy_compare.dfy | FuzzyCompare | data-only attribute comparison |
| edge_pruning.dfy | EdgePruning | denylist lookup and pruning of edge definitions |
| strings.dfy | Strings | joining, Java-style splitting and indexOf |
| query_lines.dfy | QueryLines | the line-indenting pass of the query printer and its line classifiers |
| query_render.dfy | QueryRender | string literals, binary operators, scripts and method calls in the query printer |

Behaviours of the code as written that the model keeps:

- The comment above the document-key test in the aggregator
  (TLDFiAggregator.java line 57) speaks only of child records. The condition
  also adds a marker for an entry whose uid equals its root uid (the parent
  record itself). The model follows the condition.
- The formatter's test for the last line compares object identity. Split pieces
  are distinct objects, except possibly empty ones, and an empty piece is last
  only when the whole query is empty. So the identity test is modelled as an
  index test.
- The regex-not-match arity error says "An ASTERNode has more than two
  children", as the `!~` visit is written.

## Model

| member | source | states |
|---|---|---|
| Jexl.AllIdentifiers | warehouse/query-core/src/main/java/datawave/query/jexl/visitors/FieldMissingFromSchemaVisitor.java:84-93 | a name is among the identifiers checked for a node exactly when some operand holds it; a node of literals only has none |
| SchemaCheck.AllFields | warehouse/query-core/src/main/java/datawave/query/jexl/visitors/FieldMissingFromSchemaVisitor.java:39-43 | a null datatype filter admits exactly the fields of every datatype, a given filter exactly the fields of the datatypes it lists, so an empty filter admits none |
| SchemaCheck.AddField | warehouse/query-core/src/main/java/datawave/query/jexl/visitors/FieldMissingFromSchemaVisitor.java:102-106 | the name is added exactly when it is absent from the schema fields and its special-field spelling is not special; nothing else is added or removed |
| SchemaCheck.GenericVisit | warehouse/query-core/src/main/java/datawave/query/jexl/visitors/FieldMissingFromSchemaVisitor.java:77-100 | the result set only grows, and every name it gains is neither a schema field nor special |
| SchemaCheck.DescriptorVisit | warehouse/query-core/src/main/java/datawave/query/jexl/visitors/FieldMissingFromSchemaVisitor.java:155-162 | the result set only grows, and every added name is absent from the schema |
| SchemaCheck.Visit | warehouse/query-core/src/main/java/datawave/query/jexl/visitors/FieldMissingFromSchemaVisitor.java:108-212 | the walk never removes a name, and every name it adds is absent from the schema |
| SchemaCheck.VisitKids | warehouse/query-core/src/main/java/datawave/query/jexl/visitors/FieldMissingFromSchemaVisitor.java:184-212 | children are visited in order threading one set, which only grows |
| SchemaCheck.GetNonExistentFields | warehouse/query-core/src/main/java/datawave/query/jexl/visitors/FieldMissingFromSchemaVisitor.java:54-70 | an unreachable metadata table fails construction; otherwise no reported name is a field of the datatypes the filter admits |
| SchemaCheck.GenericVisitIsUnion | warehouse/query-core/src/main/java/datawave/query/jexl/visitors/FieldMissingFromSchemaVisitor.java:89-98 | the generic visit adds exactly the reference set of missing, non-special deconstructed names |
| SchemaCheck.DescriptorVisitIsUnion | warehouse/query-core/src/main/java/datawave/query/jexl/visitors/FieldMissingFromSchemaVisitor.java:156-162 | the descriptor branch adds exactly the deconstructed names missing from the schema whose raw name is not special |
| SchemaCheck.VisitMatchesReference | warehouse/query-core/src/main/java/datawave/query/jexl/visitors/FieldMissingFromSchemaVisitor.java:108-212 | the walk succeeds exactly when every function lookup succeeds, and then returns the start set plus an independently defined set of missing names |
| SchemaCheck.VisitKidsMatchesReference | warehouse/query-core/src/main/java/datawave/query/jexl/visitors/FieldMissingFromSchemaVisitor.java:184-212 | the same for a sequence of children: success iff every child succeeds, result is the union of their missing names |
| SchemaCheck.DescriptorFieldsTakePrecedence | warehouse/query-core/src/main/java/datawave/query/jexl/visitors/FieldMissingFromSchemaVisitor.java:155-162 | when the descriptor declares fields, only those are checked and the arguments are ignored |
| SchemaCheck.AnyFieldToleratedInFunction | warehouse/query-core/src/main/java/datawave/query/jexl/visitors/FieldMissingFromSchemaVisitor.java:157-161 | a descriptor field whose raw name is special (such as _ANYFIELD_) is never reported |
| SchemaCheck.ComparisonChecksDeconstructedName | warehouse/query-core/src/main/java/datawave/query/jexl/visitors/FieldMissingFromSchemaVisitor.java:95-97 | outside functions the special-field test uses the deconstructed name, so a raw special name can still be reported |
| SchemaCheck.EmptyDescriptorFallsBackToArguments | warehouse/query-core/src/main/java/datawave/query/jexl/visitors/FieldMissingFromSchemaVisitor.java:163-165 | with no declared fields, the identifiers of the call are checked generically |
| SchemaCheck.LiteralComparisonAddsNothing | warehouse/query-core/src/main/java/datawave/query/jexl/visitors/FieldMissingFromSchemaVisitor.java:83-93 | a comparison of literals contributes nothing |
| SchemaCheck.ConnectivesOnlyThread | warehouse/query-core/src/main/java/datawave/query/jexl/visitors/FieldMissingFromSchemaVisitor.java:184-212 | script, AND, NOT, reference and reference-expression nodes add nothing themselves and pass the same set through their children |
| SchemaCheck.EmptyFilterReportsEveryNonSpecialIdentifier | warehouse/query-core/src/main/java/datawave/query/jexl/visitors/FieldMissingFromSchemaVisitor.java:39-43 | with an empty datatype filter, every non-special identifier of a comparison is reported |
| SchemaCheck.GhostFieldIsReported | warehouse/query-core/src/main/java/datawave/query/jexl/visitors/FieldMissingFromSchemaVisitor.java:67-70 | a field that no admitted datatype defines is reported by the top-level call |
| SchemaCheck.VisitDeclared | warehouse/query-core/src/main/java/datawave/query/jexl/visitors/FieldMissingFromSchemaVisitor.java:45-212 | the walk with only the declared overrides: OR hands its set back unchanged, other nodes as in the descending walk; the set only grows by names absent from the schema |
| SchemaCheck.VisitDeclaredAgrees | warehouse/query-core/src/main/java/datawave/query/jexl/visitors/FieldMissingFromSchemaVisitor.java:183-212 | on a tree without OR nodes the walk with only the declared overrides and the descending walk give the same result |
| SchemaCheck.OrHidesGhostField | warehouse/query-core/src/main/java/datawave/query/jexl/visitors/FieldMissingFromSchemaVisitor.java:183-212 | for the OR of FOO == 'a' and GHOST == 'b' with only FOO in the schema, the descending walk reports GHOST and the walk with only the declared overrides reports nothing |
| GroupingDescriptor.GetArgumentDescriptor | warehouse/query-core/src/main/java/datawave/query/jexl/functions/GroupingRequiredFilterFunctionsDescriptor.java:219-230 | a descriptor is built exactly when the namespace resolves to the grouping functions class; an unresolvable class is an error |
| GroupingDescriptor.GetIndexQuery | warehouse/query-core/src/main/java/datawave/query/jexl/functions/GroupingRequiredFilterFunctionsDescriptor.java:46-52 | the index query is the constant true node whatever the call |
| GroupingDescriptor.PairedFieldNamesSpec | warehouse/query-core/src/main/java/datawave/query/jexl/functions/GroupingRequiredFilterFunctionsDescriptor.java:125-128 | a name is a paired field exactly when some argument at an even offset below the last one names it |
| GroupingDescriptor.AllArgumentFieldNames | warehouse/query-core/src/main/java/datawave/query/jexl/functions/GroupingRequiredFilterFunctionsDescriptor.java:120-123 | the atomValuesMatch reading: the names of every argument |
| GroupingDescriptor.FilterFields | warehouse/query-core/src/main/java/datawave/query/jexl/functions/GroupingRequiredFilterFunctionsDescriptor.java:191-196 | the set intersection of the schema fields and the given fields |
| GroupingDescriptor.FilterField | warehouse/query-core/src/main/java/datawave/query/jexl/functions/GroupingRequiredFilterFunctionsDescriptor.java:179-183 | one field is added exactly when the schema has it |
| GroupingDescriptor.Fields | warehouse/query-core/src/main/java/datawave/query/jexl/functions/GroupingRequiredFilterFunctionsDescriptor.java:113-131 | the fields are schema fields; for atomValuesMatch those named by any argument, otherwise those named by an argument at an even position other than a trailing odd one |
| GroupingDescriptor.FilterEach | warehouse/query-core/src/main/java/datawave/query/jexl/functions/GroupingRequiredFilterFunctionsDescriptor.java:99-101 | adding fields one at a time keeps exactly the schema fields among them |
| GroupingDescriptor.FieldsForNormalization | warehouse/query-core/src/main/java/datawave/query/jexl/functions/GroupingRequiredFilterFunctionsDescriptor.java:90-104 | only an odd argument of a function other than atomValuesMatch has fields, those of the argument before it that exist in the schema; Java's truncating remainder means a negative argument never counts as odd; a position past the end is an error |
| GroupingDescriptor.AcceptAllValues | warehouse/query-core/src/main/java/datawave/query/jexl/functions/GroupingRequiredFilterFunctionsDescriptor.java:63-72 | every named field gets its existing or a new filter switched to accept all values; other entries are untouched |
| GroupingDescriptor.AddFieldPattern | warehouse/query-core/src/main/java/datawave/query/jexl/functions/GroupingRequiredFilterFunctionsDescriptor.java:78-84 | every named field gets its existing or a new filter with the value pattern appended; other entries are untouched |
| GroupingDescriptor.AddPairsKeys | warehouse/query-core/src/main/java/datawave/query/jexl/functions/GroupingRequiredFilterFunctionsDescriptor.java:75-85 | after the pairs loop a field is mapped exactly when it was already mapped or some pair names it |
| GroupingDescriptor.AddPairsAt | warehouse/query-core/src/main/java/datawave/query/jexl/functions/GroupingRequiredFilterFunctionsDescriptor.java:75-85 | after the pairs loop a field's filter is its previous one with the patterns of the pairs naming it appended, in pair order |
| GroupingDescriptor.AddFiltersPairs | warehouse/query-core/src/main/java/datawave/query/jexl/functions/GroupingRequiredFilterFunctionsDescriptor.java:73-86 | for a pair-reading function the map grows by exactly the paired fields; each gets its pair patterns, and other entries are unchanged |
| GroupingDescriptor.PatternsForOutsidePairs | warehouse/query-core/src/main/java/datawave/query/jexl/functions/GroupingRequiredFilterFunctionsDescriptor.java:75-85 | a field no pair names receives no pattern |
| GroupingDescriptor.AddFiltersAtom | warehouse/query-core/src/main/java/datawave/query/jexl/functions/GroupingRequiredFilterFunctionsDescriptor.java:59-72 | for atomValuesMatch every argument's field gets a filter that accepts all values and nothing else changes |
| GroupingDescriptor.AddFilters | warehouse/query-core/src/main/java/datawave/query/jexl/functions/GroupingRequiredFilterFunctionsDescriptor.java:55-87 | registers the post-scan filters of the call; AddFiltersAtom and AddFiltersPairs state the result for atomValuesMatch and for the pair-reading functions |
| GroupingDescriptor.PairedIgnoresTrailing | warehouse/query-core/src/main/java/datawave/query/jexl/functions/GroupingRequiredFilterFunctionsDescriptor.java:74-75 | a trailing odd argument is not read as a field |
| GroupingDescriptor.TrailingArgumentIsNotAField | warehouse/query-core/src/main/java/datawave/query/jexl/functions/GroupingRequiredFilterFunctionsDescriptor.java:125-128 | appending a position argument to an even argument list leaves the fields unchanged |
| GroupingDescriptor.UseOrForExpansion | warehouse/query-core/src/main/java/datawave/query/jexl/functions/GroupingRequiredFilterFunctionsDescriptor.java:198-203 | expansion uses OR for every descriptor |
| GroupingDescriptor.RegexArguments | warehouse/query-core/src/main/java/datawave/query/jexl/functions/GroupingRequiredFilterFunctionsDescriptor.java:205-210 | the arguments are never regular expressions |
| GroupingDescriptor.AllowIvaratorFiltering | warehouse/query-core/src/main/java/datawave/query/jexl/functions/GroupingRequiredFilterFunctionsDescriptor.java:212-215 | ivarator filtering is always allowed |
| GeoWaveDescriptor.Scan | warehouse/query-core/src/main/java/datawave/query/jexl/functions/GeoWaveFunctionsDescriptor.java:152-159 | the linear scan succeeds exactly when the name equals one of the operations scanned |
| GeoWaveDescriptor.IsSpatialRelationship | warehouse/query-core/src/main/java/datawave/query/jexl/functions/GeoWaveFunctionsDescriptor.java:152-159 | the relation test scans the operation list; SpatialRelationships states that it accepts exactly the seven relation names |
| GeoWaveDescriptor.SpatialRelationships | warehouse/query-core/src/main/java/datawave/query/jexl/functions/GeoWaveFunctionsDescriptor.java:45 | the spatial relations are exactly contains, covers, coveredBy, crosses, intersects, overlaps and within |
| GeoWaveDescriptor.JoinParametersIsJoin | warehouse/query-core/src/main/java/datawave/query/jexl/functions/GeoWaveFunctionsDescriptor.java:165-171 | the usage text lists the parameter names separated by ", " |
| GeoWaveDescriptor.VerifyArity | warehouse/query-core/src/main/java/datawave/query/jexl/functions/GeoWaveFunctionsDescriptor.java:161-173 | the arity check fails exactly when the count differs from the number of parameters, with the usage message |
| GeoWaveDescriptor.SpatialUsage | warehouse/query-core/src/main/java/datawave/query/jexl/functions/GeoWaveFunctionsDescriptor.java:146 | the usage shown for a spatial relation is name(fieldName, geometryString) |
| GeoWaveDescriptor.Verify | warehouse/query-core/src/main/java/datawave/query/jexl/functions/GeoWaveFunctionsDescriptor.java:142-150 | succeeds exactly for a spatial relation with two arguments; an unknown name is rejected before the arity is checked, each with its exact message |
| GeoWaveDescriptor.GetArgumentDescriptor | warehouse/query-core/src/main/java/datawave/query/jexl/functions/GeoWaveFunctionsDescriptor.java:119-138 | checks in order: namespace, class resolution (an unresolved class is dereferenced, a null-pointer error), class identity, name and arity, geometry parse; succeeds exactly when all pass |
| GeoWaveDescriptor.Fields | warehouse/query-core/src/main/java/datawave/query/jexl/functions/GeoWaveFunctionsDescriptor.java:84-90 | the fields are those of the parsed geometry function, none without one |
| GeoWaveDescriptor.FactoryFields | warehouse/query-core/src/main/java/datawave/query/jexl/functions/GeoWaveFunctionsDescriptor.java:119-138 | a descriptor from the factory reports exactly the parsed function's fields |
| GeoWaveDescriptor.AddFilters | warehouse/query-core/src/main/java/datawave/query/jexl/functions/GeoWaveFunctionsDescriptor.java:73-76 | no filter is added |
| GeoWaveDescriptor.FieldsForNormalization | warehouse/query-core/src/main/java/datawave/query/jexl/functions/GeoWaveFunctionsDescriptor.java:78-81 | no argument is normalised against any field |
| GeoWaveDescriptor.UseOrForExpansion | warehouse/query-core/src/main/java/datawave/query/jexl/functions/GeoWaveFunctionsDescriptor.java:98-100 | expansion uses OR |
| GeoWaveDescriptor.RegexArguments | warehouse/query-core/src/main/java/datawave/query/jexl/functions/GeoWaveFunctionsDescriptor.java:103-105 | the arguments are not regular expressions |
| GeoWaveDescriptor.AllowIvaratorFiltering | warehouse/query-core/src/main/java/datawave/query/jexl/functions/GeoWaveFunctionsDescriptor.java:108-110 | ivarator filtering is not allowed |
| GeoWaveDescriptor.NamespaceCheckedFirst | warehouse/query-core/src/main/java/datawave/query/jexl/functions/GeoWaveFunctionsDescriptor.java:125-127 | a wrong namespace is reported whatever the class and the name |
| GeoWaveDescriptor.UnknownNameBeatsParser | warehouse/query-core/src/main/java/datawave/query/jexl/functions/GeoWaveFunctionsDescriptor.java:132-137 | an unknown function name fails before the geometry parser is consulted |
| RegexLookup.RefusedPatterns | warehouse/query-core/src/main/java/datawave/query/jexl/lookups/BaseRegexIndexLookup.java:10-18 | a pattern is refused exactly when it is ".*" or ".*?" |
| RegexLookup.EquivalentSpellingsAccepted | warehouse/query-core/src/main/java/datawave/query/jexl/lookups/BaseRegexIndexLookup.java:16-18 | the gate is literal: equivalent match-everything spellings pass |
| RegexLookup.IsAcceptedPattern | warehouse/query-core/src/main/java/datawave/query/jexl/lookups/BaseRegexIndexLookup.java:16-18 | a pattern is looked up unless it is one of the two refused spellings; RefusedPatterns states that exactly ".*" and ".*?" are refused |
| Keys.LexLessPrefix | warehouse/query-core/src/main/java/datawave/query/jexl/functions/TLDFiAggregator.java:84 | a common prefix does not change the order of two column qualifiers |
| Keys.LexLessIrreflexive | warehouse/query-core/src/main/java/datawave/query/jexl/functions/TLDFiAggregator.java:84-86 | no qualifier sorts before itself |
| TldAggregator.RunEnd | warehouse/query-core/src/main/java/datawave/query/jexl/functions/TLDFiAggregator.java:40-45 | the run ends at or after its start and within the stream |
| TldAggregator.SameUid | warehouse/query-core/src/main/java/datawave/query/jexl/functions/TLDFiAggregator.java:76-79 | two entries belong to one document exactly when their root uids are equal; Apply consumes exactly the entries this accepts against the first |
| TldAggregator.ToKeep | warehouse/query-core/src/main/java/datawave/query/jexl/functions/TLDFiAggregator.java:51-54 | the keep flag of an attribute; KeepFlag states it for every combination of absent and present field list and filter |
| TldAggregator.AddsDocKey | warehouse/query-core/src/main/java/datawave/query/jexl/functions/TLDFiAggregator.java:58-60 | a marker is added for an entry whose uid differs from the first entry's or equals its own root uid; ChildRecordMarked and FirstEntryMarker state the two halves |
| TldAggregator.Apply | warehouse/query-core/src/main/java/datawave/query/jexl/functions/TLDFiAggregator.java:34-72 | consumes exactly the maximal run of entries sharing the first entry's root uid, stops at the first other entry, returns the parent key of the first entry and appends the puts of every consumed entry in order |
| TldAggregator.OneAttributePerEntry | warehouse/query-core/src/main/java/datawave/query/jexl/functions/TLDFiAggregator.java:47-55 | every consumed entry contributes exactly one attribute, under its own field, in stream order |
| TldAggregator.ChildRecordMarked | warehouse/query-core/src/main/java/datawave/query/jexl/functions/TLDFiAggregator.java:57-60 | an entry of a child record adds a document-key marker for that record |
| TldAggregator.FirstEntryMarker | warehouse/query-core/src/main/java/datawave/query/jexl/functions/TLDFiAggregator.java:58-60 | the first entry adds a marker exactly when its uid is its root uid |
| TldAggregator.KeepFlag | warehouse/query-core/src/main/java/datawave/query/jexl/functions/TLDFiAggregator.java:51-54 | an absent field list or filter keeps everything; a present field list keeps exactly the fields that, without grouping context, it lists; a present filter keeps exactly what it keeps; both must agree |
| TldAggregator.MergedChildrenExample | warehouse/query-core/src/main/java/datawave/query/jexl/functions/TLDFiAggregator.java:40-45 | two records of root A are consumed together and the entry of root B is left on top |
| TldAggregator.GetSeekRange | warehouse/query-core/src/main/java/datawave/query/jexl/functions/TLDFiAggregator.java:82-87 | the start is the entry's row and column family with qualifier value, NUL, datatype, NUL, root uid and the largest code point, at timestamp 0, exclusive; the end is the given range's |
| TldAggregator.SeekSkipsSameDocument | warehouse/query-core/src/main/java/datawave/query/jexl/functions/TLDFiAggregator.java:82-87 | every entry of the same document, whose uid extends the root uid by a suffix not starting with the largest code point, sorts before the seek start |
| TldAggregator.SeekKeepsLaterUids | warehouse/query-core/src/main/java/datawave/query/jexl/functions/TLDFiAggregator.java:84-86 | every entry of the same field, value and datatype whose uid sorts after the root uid without extending it sorts after the seek start, so the seek never passes it |
| TldAggregator.SeekSkipsExtendedRoot | warehouse/query-core/src/main/java/datawave/query/jexl/functions/TLDFiAggregator.java:84-86 | after root uid "A", the entries of the different top-level document "AB" sort before the seek start and are skipped |
| TldAggregator.GetDocumentSeekRange | warehouse/query-core/src/main/java/datawave/query/jexl/functions/TLDFiAggregator.java:82-87 | the seek start bounded by the child separator: qualifier value, NUL, datatype, NUL, root uid, "." and the largest code point, at timestamp 0, exclusive; the end is the given range's |
| TldAggregator.DocumentSeekSkipsDocument | warehouse/query-core/src/main/java/datawave/query/jexl/functions/TLDFiAggregator.java:84-86 | the root record and every child record "rootUid.…" sort before the bounded seek start |
| TldAggregator.DocumentSeekKeepsOtherRoots | warehouse/query-core/src/main/java/datawave/query/jexl/functions/TLDFiAggregator.java:84-86 | an entry whose uid extends the root uid with a character above "." sorts after the bounded seek start and is kept |
| TldAggregator.DocumentSeekKeepsExtendedRoot | warehouse/query-core/src/main/java/datawave/query/jexl/functions/TLDFiAggregator.java:84-86 | after root uid "A", the bounded seek keeps the entries of root "AB" |
| ExpressionFilter.SetFilters | warehouse/query-core/src/main/java/datawave/query/predicate/EventDataQueryExpressionFilter.java:86-94 | predicates can be set once; a second call is an error |
| ExpressionFilter.New | warehouse/query-core/src/main/java/datawave/query/predicate/EventDataQueryExpressionFilter.java:57-59 | the map constructor yields an initialised filter over the given predicates with no document |
| ExpressionFilter.SetFiltersOnce | warehouse/query-core/src/main/java/datawave/query/predicate/EventDataQueryExpressionFilter.java:88-90 | setting predicates on a constructed filter always fails |
| ExpressionFilter.Apply | warehouse/query-core/src/main/java/datawave/query/predicate/EventDataQueryExpressionFilter.java:100-126 | an uninitialised filter is an error; a key is accepted exactly when its field has a predicate that accepts it; only that predicate advances |
| ExpressionFilter.Peek | warehouse/query-core/src/main/java/datawave/query/predicate/EventDataQueryExpressionFilter.java:105-126 | the same decision as apply, with no state change |
| ExpressionFilter.PeekAgreesWithApply | warehouse/query-core/src/main/java/datawave/query/predicate/EventDataQueryExpressionFilter.java:114-126 | peek and apply fail alike and decide alike |
| ExpressionFilter.UnfilteredFieldRejected | warehouse/query-core/src/main/java/datawave/query/predicate/EventDataQueryExpressionFilter.java:121-125 | a key of a field without a predicate is rejected and changes nothing |
| ExpressionFilter.StartNewDocument | warehouse/query-core/src/main/java/datawave/query/predicate/EventDataQueryExpressionFilter.java:68-73 | records the document and resets every predicate, keeping the same fields |
| ExpressionFilter.StartNewDocumentIdempotent | warehouse/query-core/src/main/java/datawave/query/predicate/EventDataQueryExpressionFilter.java:68-73 | starting the same document twice equals starting it once when reset is idempotent |
| ExpressionFilter.DocumentBoundaryForgets | warehouse/query-core/src/main/java/datawave/query/predicate/EventDataQueryExpressionFilter.java:68-73 | after a document boundary the decisions do not depend on the previous document's progress |
| ExpressionFilter.Keep | warehouse/query-core/src/main/java/datawave/query/predicate/EventDataQueryExpressionFilter.java:75-78 | every key is kept |
| ExpressionFilter.Copy | warehouse/query-core/src/main/java/datawave/query/predicate/EventDataQueryExpressionFilter.java:61-66 | clone and the copy constructor: a copy of an initialised filter has cloned predicates for the same fields and the same document; copying an uninitialised one fails |
| ExpressionFilter.CopyDecidesAlike | warehouse/query-core/src/main/java/datawave/query/predicate/EventDataQueryExpressionFilter.java:61-66 | a copy decides every key as the original when cloning keeps decisions |
| ExpressionFilter.GetSeekRange | warehouse/query-core/src/main/java/datawave/query/predicate/EventDataQueryExpressionFilter.java:139-143 | no seek range |
| ExpressionFilter.Transform | warehouse/query-core/src/main/java/datawave/query/predicate/EventDataQueryExpressionFilter.java:151-155 | no transformed key |
| ExpressionFilter.GetMaxNextCount | warehouse/query-core/src/main/java/datawave/query/predicate/EventDataQueryExpressionFilter.java:145-149 | no bound (-1) |
| FuzzyCompare.SingleToMultiple | warehouse/query-core/src/main/java/datawave/query/util/FuzzyAttributeComparator.java:17-21 | true exactly when some member has the single attribute's data; false for an empty collection |
| FuzzyCompare.SingleToSingle | warehouse/query-core/src/main/java/datawave/query/util/FuzzyAttributeComparator.java:13-15 | two attributes match exactly when their data are equal, whatever their metadata; SingletonIsSingle relates it to the collection match |
| FuzzyCompare.MultipleToMultiple | warehouse/query-core/src/main/java/datawave/query/util/FuzzyAttributeComparator.java:23-34 | true exactly when some pair of an existing and a new attribute has equal data |
| FuzzyCompare.SomeEqualDataSymmetric | warehouse/query-core/src/main/java/datawave/query/util/FuzzyAttributeComparator.java:23-34 | the collection match does not depend on which side is existing |
| FuzzyCompare.SingleIsSingletonMultiple | warehouse/query-core/src/main/java/datawave/query/util/FuzzyAttributeComparator.java:17-21 | matching one attribute is matching the one-element collection |
| FuzzyCompare.SingletonIsSingle | warehouse/query-core/src/main/java/datawave/query/util/FuzzyAttributeComparator.java:13-15 | against a one-element collection the match is singleToSingle |
| FuzzyCompare.CombineAttributes | warehouse/query-core/src/main/java/datawave/query/util/FuzzyAttributeComparator.java:36-38 | never combines (null) |
| EdgePruning.OwnListIgnoresDefault | warehouse/ingest-core/src/main/java/datawave/ingest/mapreduce/handler/edge/EdgeIngestConfiguration.java:299-317 | a datatype with its own denylist is judged by it alone; the default list does not matter |
| EdgePruning.FallbackToDefault | warehouse/ingest-core/src/main/java/datawave/ingest/mapreduce/handler/edge/EdgeIngestConfiguration.java:299-317 | a datatype without its own list is judged by the "default" list, and by nothing when that is absent |
| EdgePruning.IsDenylistField | warehouse/ingest-core/src/main/java/datawave/ingest/mapreduce/handler/edge/EdgeIngestConfiguration.java:299-307 | a field is denylisted by the datatype's own list, or by the "default" list when the datatype has none; OwnListIgnoresDefault and FallbackToDefault state both cases |
| EdgePruning.IsDenylistValue | warehouse/ingest-core/src/main/java/datawave/ingest/mapreduce/handler/edge/EdgeIngestConfiguration.java:309-317 | the same lookup over the value denylists; OwnListIgnoresDefault and FallbackToDefault state both cases |
| EdgePruning.WithoutDenylisted | warehouse/ingest-core/src/main/java/datawave/ingest/mapreduce/handler/edge/EdgeIngestConfiguration.java:199-226 | every datatype keeps its entry holding exactly its edges whose source, sink or enrichment field is not denylisted |
| EdgePruning.WithoutPreconditions | warehouse/ingest-core/src/main/java/datawave/ingest/mapreduce/handler/edge/EdgeIngestConfiguration.java:264-289 | every datatype keeps its entry holding exactly its edges without a precondition |
| EdgePruning.RemoveDenyListedEdges | warehouse/ingest-core/src/main/java/datawave/ingest/mapreduce/handler/edge/EdgeIngestConfiguration.java:199-233 | nothing changes with denylisting disabled; otherwise only the edges change, to the non-denylisted ones |
| EdgePruning.SetUpPreconditions | warehouse/ingest-core/src/main/java/datawave/ingest/mapreduce/handler/edge/EdgeIngestConfiguration.java:247-259 | edges with a precondition are removed exactly when preconditions are neither evaluated nor all edges included |
| EdgePruning.PruneEdges | warehouse/ingest-core/src/main/java/datawave/ingest/mapreduce/handler/edge/EdgeIngestConfiguration.java:153-157 | pruning keeps the datatype keys and only shrinks their edge sets |
| EdgePruning.PruneEdgesExactly | warehouse/ingest-core/src/main/java/datawave/ingest/mapreduce/handler/edge/EdgeIngestConfiguration.java:153-157 | an edge survives exactly when neither the precondition step nor the denylist step removes it |
| EdgePruning.PruneEdgesNoop | warehouse/ingest-core/src/main/java/datawave/ingest/mapreduce/handler/edge/EdgeIngestConfiguration.java:199-259 | with denylisting off and preconditions kept, pruning changes nothing |
| EdgePruning.PruneEdgesIdempotent | warehouse/ingest-core/src/main/java/datawave/ingest/mapreduce/handler/edge/EdgeIngestConfiguration.java:153-157 | pruning twice is pruning once |
| EdgePruning.StepsCommute | warehouse/ingest-core/src/main/java/datawave/ingest/mapreduce/handler/edge/EdgeIngestConfiguration.java:153-157 | the order of the two steps does not change the result |
| Strings.SplitAllJoin | warehouse/query-core/src/main/java/datawave/query/jexl/visitors/JexlFormattedStringBuildingVisitor.java:93 | splitting at a character and joining with it gives the string back; no piece holds the character |
| Strings.SplitAllLast | warehouse/query-core/src/main/java/datawave/query/jexl/visitors/JexlFormattedStringBuildingVisitor.java:93 | the last piece is empty exactly when the string is empty or ends with the separator |
| Strings.DropTrailingEmpty | warehouse/query-core/src/main/java/datawave/query/jexl/visitors/JexlFormattedStringBuildingVisitor.java:93 | the result is a prefix ending in a non-empty piece, and only empty pieces are dropped |
| Strings.JavaSplitJoin | warehouse/query-core/src/main/java/datawave/query/jexl/visitors/JexlFormattedStringBuildingVisitor.java:93 | a query not ending in a newline splits into lines that join back to it |
| Strings.IndexOf | warehouse/query-core/src/main/java/datawave/query/jexl/visitors/JexlFormattedStringBuildingVisitor.java:650-661 | the first index at or after the start holding the character, or -1 when there is none |
| QueryLines.StripTagsNoTags | warehouse/query-core/src/main/java/datawave/query/jexl/visitors/JexlFormattedStringBuildingVisitor.java:132 | a line without tags is unchanged |
| QueryLines.StripTags | warehouse/query-core/src/main/java/datawave/query/jexl/visitors/JexlFormattedStringBuildingVisitor.java:132 | tag removal never lengthens a line; StripTagsNoTags and StripTagsLeadingTag state what it removes |
| QueryLines.ContainsOnly | warehouse/query-core/src/main/java/datawave/query/jexl/visitors/JexlFormattedStringBuildingVisitor.java:131-135 | a line is one or more copies of the character once tags are removed; ClassifyIgnoresTags and TaggedOpenLine state the tag insensitivity |
| QueryLines.CloseParensFollowedByAndOr | warehouse/query-core/src/main/java/datawave/query/jexl/visitors/JexlFormattedStringBuildingVisitor.java:143-147 | a line is one or more ")" then " && " or the spaced OR operator once tags are removed; ClosingOrLine, ClosingAndLine and OperatorWithoutSpace state its cases |
| QueryLines.ClassifyIgnoresTags | warehouse/query-core/src/main/java/datawave/query/jexl/visitors/JexlFormattedStringBuildingVisitor.java:131-147 | a leading tag changes neither classifier nor the branch the printer takes |
| QueryLines.OpenLineIsNotClose | warehouse/query-core/src/main/java/datawave/query/jexl/visitors/JexlFormattedStringBuildingVisitor.java:96-107 | an opening line is never a closing line, so the order of the two tests does not matter |
| QueryLines.Formatted | warehouse/query-core/src/main/java/datawave/query/jexl/visitors/JexlFormattedStringBuildingVisitor.java:96-118 | the printed lines, as many as the input lines, each the input line after the indentation of its level; FormatLines proves the printing loop produces them joined by newlines |
| QueryLines.StripTagsLeadingTag | warehouse/query-core/src/main/java/datawave/query/jexl/visitors/JexlFormattedStringBuildingVisitor.java:132 | a tag is removed up to its first closing bracket |
| QueryLines.TaggedOpenLine | warehouse/query-core/src/main/java/datawave/query/jexl/visitors/JexlFormattedStringBuildingVisitor.java:131-135 | tags are ignored: a tagged "(" is an opening line |
| QueryLines.EmptyLineIsPlain | warehouse/query-core/src/main/java/datawave/query/jexl/visitors/JexlFormattedStringBuildingVisitor.java:131-147 | an empty line is neither an opening nor a closing line |
| QueryLines.ClosingOrLine | warehouse/query-core/src/main/java/datawave/query/jexl/visitors/JexlFormattedStringBuildingVisitor.java:143-147 | closing parentheses followed by " || " close a level |
| QueryLines.OperatorWithoutSpace | warehouse/query-core/src/main/java/datawave/query/jexl/visitors/JexlFormattedStringBuildingVisitor.java:143-147 | the operator must be followed by a space |
| QueryLines.ClosingAndLine | warehouse/query-core/src/main/java/datawave/query/jexl/visitors/JexlFormattedStringBuildingVisitor.java:102 | a ")" joined by " && " is a closing line |
| QueryLines.ExpressionLineIsPlain | warehouse/query-core/src/main/java/datawave/query/jexl/visitors/JexlFormattedStringBuildingVisitor.java:110-113 | an expression line is indented without changing the depth |
| QueryLines.DepthCounts | warehouse/query-core/src/main/java/datawave/query/jexl/visitors/JexlFormattedStringBuildingVisitor.java:96-107 | the depth before a line is the number of opening lines minus closing lines before it |
| QueryLines.Spaces | warehouse/query-core/src/main/java/datawave/query/jexl/visitors/JexlFormattedStringBuildingVisitor.java:98-111 | four spaces per level, none for a level at or below zero |
| QueryLines.AddTabs | warehouse/query-core/src/main/java/datawave/query/jexl/visitors/JexlFormattedStringBuildingVisitor.java:98-100 | the tab loop appends four spaces per level and nothing for a negative count |
| QueryLines.IndentLine | warehouse/query-core/src/main/java/datawave/query/jexl/visitors/JexlFormattedStringBuildingVisitor.java:96-113 | an opening line is indented then raises the depth, a closing line lowers it then is indented, other lines are indented at the current depth |
| QueryLines.FormatBuiltQuery | warehouse/query-core/src/main/java/datawave/query/jexl/visitors/JexlFormattedStringBuildingVisitor.java:89-121 | the result is the split lines, each indented by its level, joined by newlines with none after the last |
| QueryLines.FormatLines | warehouse/query-core/src/main/java/datawave/query/jexl/visitors/JexlFormattedStringBuildingVisitor.java:95-119 | the loop over the lines produces the joined indented lines |
| QueryLines.DepthPlainRun | warehouse/query-core/src/main/java/datawave/query/jexl/visitors/JexlFormattedStringBuildingVisitor.java:110-113 | expression lines leave the depth unchanged |
| QueryLines.BlockIndent | warehouse/query-core/src/main/java/datawave/query/jexl/visitors/JexlFormattedStringBuildingVisitor.java:96-113 | a parenthesised block of expressions prints its parentheses at the outer level and its lines one level deeper |
| QueryRender.UnescapedEscaped | warehouse/query-core/src/main/java/datawave/query/jexl/visitors/JexlFormattedStringBuildingVisitor.java:650-668 | decoding an escaped character gives the text back |
| QueryRender.Escaped | warehouse/query-core/src/main/java/datawave/query/jexl/visitors/JexlFormattedStringBuildingVisitor.java:650-668 | a backslash before every occurrence of the character and nothing else changed, never shorter; UnescapedEscaped proves the decoder recovers the text |
| QueryRender.PlainBodyDecodes | warehouse/query-core/src/main/java/datawave/query/jexl/visitors/JexlFormattedStringBuildingVisitor.java:647-668 | outside a regex a general backslash decoder reads the escaped body back as the literal |
| QueryRender.ReferencesAreTransparent | warehouse/query-core/src/main/java/datawave/query/jexl/visitors/JexlFormattedStringBuildingVisitor.java:639-642 | reference nodes between a literal and its operator do not change whether it is a regex operand |
| QueryRender.EscapeQuotes | warehouse/query-core/src/main/java/datawave/query/jexl/visitors/JexlFormattedStringBuildingVisitor.java:650-669 | the indexOf loop puts a backslash before every quote and changes nothing else |
| QueryRender.VisitStringLiteral | warehouse/query-core/src/main/java/datawave/query/jexl/visitors/JexlFormattedStringBuildingVisitor.java:634-678 | the literal is quoted; its body decodes back to the literal; backslashes are doubled exactly outside =~ and !~; every inner quote follows a backslash |
| QueryRender.QuotesAreEscaped | warehouse/query-core/src/main/java/datawave/query/jexl/visitors/JexlFormattedStringBuildingVisitor.java:657-661 | every quote of the escaped text follows a backslash, so it cannot end the literal |
| QueryRender.BackslashExample | warehouse/query-core/src/main/java/datawave/query/jexl/visitors/JexlFormattedStringBuildingVisitor.java:647-648 | a backslash is doubled in an equality operand and kept in a regex operand |
| QueryRender.QuoteExample | warehouse/query-core/src/main/java/datawave/query/jexl/visitors/JexlFormattedStringBuildingVisitor.java:657-665 | a quote is escaped with a backslash |
| QueryRender.RenderBinary | warehouse/query-core/src/main/java/datawave/query/jexl/visitors/JexlFormattedStringBuildingVisitor.java:380-553 | two children render as left, the spaced symbol, right; any other count is an illegal argument with the node's message |
| QueryRender.SpacedSymbolsPrefixFree | warehouse/query-core/src/main/java/datawave/query/jexl/visitors/JexlFormattedStringBuildingVisitor.java:380-553 | no spaced operator symbol is a prefix of another |
| QueryRender.OperatorAndRightOperandRecovered | warehouse/query-core/src/main/java/datawave/query/jexl/visitors/JexlFormattedStringBuildingVisitor.java:380-553 | given the left operand, the rendered text determines the operator and the right operand |
| QueryRender.NotMatchErrorNamesMatchNode | warehouse/query-core/src/main/java/datawave/query/jexl/visitors/JexlFormattedStringBuildingVisitor.java:534-541 | the !~ arity error names the =~ node, and other counts than two fail |
| QueryRender.TerminatedIsJoin | warehouse/query-core/src/main/java/datawave/query/jexl/visitors/JexlFormattedStringBuildingVisitor.java:814-822 | terminating every statement with "; " is joining them with "; " plus one trailing separator |
| QueryRender.VisitScript | warehouse/query-core/src/main/java/datawave/query/jexl/visitors/JexlFormattedStringBuildingVisitor.java:812-824 | the statements joined by "; " after what the builder held; with none, the last two characters of a non-empty builder are cut, and a one-character builder cannot be cut |
| QueryRender.RenderMethod | warehouse/query-core/src/main/java/datawave/query/jexl/visitors/JexlFormattedStringBuildingVisitor.java:717-775 | a method outside the allow-list is a composition error; an allowed one renders as ".name(arguments)" |
| QueryRender.NumbersJoinedByCommas | warehouse/query-core/src/main/java/datawave/query/jexl/visitors/JexlFormattedStringBuildingVisitor.java:757-762 | numbers appended to a non-empty builder each follow a comma |
| QueryRender.NumberArguments | warehouse/query-core/src/main/java/datawave/query/jexl/visitors/JexlFormattedStringBuildingVisitor.java:757-767 | number arguments with non-empty images render as their images joined by commas |
| QueryRender.ArgumentQuirks | warehouse/query-core/src/main/java/datawave/query/jexl/visitors/JexlFormattedStringBuildingVisitor.java:736-762 | a function call in a reference argument gets no comma, a string argument is quoted without escaping, other argument kinds are skipped |
| QueryRender.AllowListExamples | warehouse/query-core/src/main/java/datawave/query/jexl/visitors/JexlFormattedStringBuildingVisitor.java:63-64 | size and contains render; add, a mutating method, is refused |

## Left out

- Metadata, identifier deconstruction, grouping-context removal and attribute creation are parameters; their implementations are not part of this model.
- SchemaCheck.Visit: descends into OR nodes. The visitor overrides no OR visit; its base visitor, which is not part of this model, decides what happens there. The descending walk is the behaviour modelled throughout, and the walk with only the declared overrides is kept alongside it (see "## Findings").
- SchemaCheck.Visit: a null result set passed into a visit is not modelled, because the entry point always passes an empty set.
- The descriptor factory that maps a function node to its declared fields is a parameter; its failure stands for the metadata fetch errors.
- `fieldSets` of both descriptors: it calls a field-product helper that is not part of this model.
- GeoWave `getIndexQuery` and range decomposition: floating-point geometry in classes that are not part of this model. The geometry parser is a parameter.
- The GeoWave namespace is taken to be "geowave"; the class holding that constant is not part of this model.
- The threaded index lookup that uses the regex gate: concurrency in a class that is not part of this model.
- The base field-index aggregator (full-uid identity, parent key and record id): not part of this model. Its parent-key and record-id constructions are parameters.
- TldAggregator.GetDocumentSeekRange: assumes that child uids extend their parent's uid with "." and a suffix; the uid format is not part of this model, and a uid that extends the root uid with a character below "." is still skipped.
- TldAggregator.Apply: the document is modelled as the log of puts in order, not as a multimap with merge semantics; the iterator is a sequence with a cursor, so a store read error while advancing it, and the partly filled document such an error leaves behind, are not modelled.
- The largest Unicode string constant of the store library is modelled as the single code point U+10FFFF.
- ExpressionFilter: the predicate contract that peek gives the decision apply would give is assumed through one `accepts` function; the predicates themselves are not part of this model. The deprecated constructors that build the predicates from a query tree are left out.
- ExpressionFilter.New: setting the predicates copies only the map; the predicate objects stay shared with the caller and with any other filter built from the same map, so an apply through one advances the others. The model treats predicates as values and does not show this sharing.
- ExpressionFilter.StartNewDocument: on an uninitialised filter the source resets a null map; the model resets no predicate.
- EdgePruning: edge definitions per datatype are modelled as sets, while the configuration helper holds lists; removal from a list drops one equal element per removal. Configuration loading, the constructor, the version cache, date parsing and the set-up of precondition evaluation are left out.
- The query printer's HTML mode, AND/OR/reference-expression rendering (which depends on query property markers not part of this model), identifiers, functions, arithmetic, and the re-parse check and console entry points are left out.
- The newline separator of the printer is taken to be "\n"; the quote and backslash constants are taken to be the single characters.
- QueryRender.RenderMethod: nested method and function arguments are given already rendered; errors raised while rendering them are not modelled.

## Findings

| source | as written | input that shows it | evidently intended | confidence | as-written member | corrected member |
|---|---|---|---|---|---|---|
| warehouse/query-core/src/main/java/datawave/query/jexl/functions/TLDFiAggregator.java:84 | the seek start is the qualifier prefix, the root uid and the largest code point, so every uid that merely begins with the root uid sorts before it | root uid "A" with the same field, value and datatype as an entry of a different top-level document with uid and root uid "AB": "AB" sorts before "A" followed by U+10FFFF, so the seek skips that document | skip only the current document: the root record and its children "A.…", by putting the child separator "." before the largest code point | low, not executed; it needs two root uids of which one is a prefix of the other | TldAggregator.SeekSkipsExtendedRoot | TldAggregator.GetDocumentSeekRange |
| warehouse/query-core/src/main/java/datawave/query/jexl/visitors/FieldMissingFromSchemaVisitor.java:45 | the visitor overrides the visits of script, AND, NOT, reference and reference-expression nodes but not OR, so an OR node is handled by the base visitor | the OR of FOO == 'a' and GHOST == 'b' with only FOO in the schema: if the base visitor hands the set back without descending, GHOST is never reported | every field under an OR is checked like one under an AND | low, not executed; the base visitor is not part of this model | SchemaCheck.OrHidesGhostField | SchemaCheck.Visit |
