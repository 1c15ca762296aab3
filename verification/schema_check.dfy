/** The schema check: a walk over a query tree that collects every field name
    the query mentions which neither exists for the active datatype filter nor is
    one of the special (virtual) fields. */
module SchemaCheck {
  import opened Wrappers
  import opened Jexl

  /** Comparison and regex operators: ==, !=, <, <=, >, >=, =~, !~. */
  datatype CompareOp = EQ | NE | LT | LE | GT | GE | ER | NR

  /** The node kinds the check distinguishes. Connectives only carry children. */
  datatype Node =
    | Script(kids: seq<Node>)
    | And(kids: seq<Node>)
    | Or(kids: seq<Node>)
    | Not(kids: seq<Node>)
    | Reference(kids: seq<Node>)
    | ReferenceExpression(kids: seq<Node>)
    | Compare(op: CompareOp, operands: seq<Operand>)
    | Function(call: FunctionCall)

  /** The metadata collaborator: the fields defined for each datatype, or an
      unreachable metadata table. */
  datatype Metadata = Reachable(fieldsByDatatype: map<string, set<string>>) | Unreachable

  datatype SchemaError =
    | MetadataUnavailable                     // the visitor could not be constructed
    | MetadataFetchError(call: FunctionCall)  // a descriptor's field lookup failed

  /** The fields of the datatypes a filter admits: a null filter (None) admits
      every datatype, a given filter exactly the datatypes it lists, so an
      empty filter admits none. */
  function AllFields(fieldsByDatatype: map<string, set<string>>, datatypeFilter: Option<set<string>>): (r: set<string>)
    ensures datatypeFilter == Some({}) ==> r == {}
    ensures datatypeFilter.None? ==> forall f :: f in r <==> exists dt :: dt in fieldsByDatatype && f in fieldsByDatatype[dt]
    ensures datatypeFilter.Some? ==> forall f :: f in r <==>
      exists dt :: dt in datatypeFilter.value && dt in fieldsByDatatype && f in fieldsByDatatype[dt]
  {
    set dt, f | dt in fieldsByDatatype && (datatypeFilter.None? || dt in datatypeFilter.value) && f in fieldsByDatatype[dt] :: f
  }

  /** What the walk consults: the fields of the allowed datatypes, the special
      fields, the identifier deconstruction (strips the `$` escape), and each
      function node's descriptor field set, listed in its iteration order (None
      when the descriptor's metadata lookup fails). */
  datatype Visitor = Visitor(
    allFields: set<string>,
    specialFields: set<string>,
    deconstruct: string -> string,
    descriptorFields: FunctionCall -> Option<seq<string>>)

  /** Adds `toAdd` when it is absent from the schema and `specialName` is not a special field. */
  function AddField(v: Visitor, toAdd: string, specialName: string, acc: set<string>): (r: set<string>)
    ensures acc <= r && r - acc <= {toAdd}
    ensures toAdd in r <==> toAdd in acc || (toAdd !in v.allFields && specialName !in v.specialFields)
  {
    if toAdd !in v.allFields && specialName !in v.specialFields then acc + {toAdd} else acc
  }

  /** The generic visit: every identifier is deconstructed and checked under that one name. */
  function GenericVisit(v: Visitor, names: seq<string>, acc: set<string>): (r: set<string>)
    ensures acc <= r
    ensures forall x :: x in r - acc ==> x !in v.allFields && x !in v.specialFields
  {
    if |names| == 0 then acc
    else
      var n := v.deconstruct(names[0]);
      GenericVisit(v, names[1..], AddField(v, n, n, acc))
  }

  /** The function-node visit when the descriptor declares fields: the schema
      check uses the deconstructed name, the special-field check the raw name. */
  function DescriptorVisit(v: Visitor, fields: seq<string>, acc: set<string>): (r: set<string>)
    ensures acc <= r
    ensures forall x :: x in r - acc ==> x !in v.allFields
  {
    if |fields| == 0 then acc
    else DescriptorVisit(v, fields[1..], AddField(v, v.deconstruct(fields[0]), fields[0], acc))
  }

  /** The walk. The result set is threaded through the children as the source
      threads one mutable set through the visit. */
  function Visit(v: Visitor, n: Node, acc: set<string>): (r: Result<set<string>, SchemaError>)
    ensures r.Success? ==> acc <= r.value
    ensures r.Success? ==> forall x :: x in r.value - acc ==> x !in v.allFields
  {
    match n
    case Script(kids) => VisitKids(v, kids, acc)
    case And(kids) => VisitKids(v, kids, acc)
    case Or(kids) => VisitKids(v, kids, acc)
    case Not(kids) => VisitKids(v, kids, acc)
    case Reference(kids) => VisitKids(v, kids, acc)
    case ReferenceExpression(kids) => VisitKids(v, kids, acc)
    case Compare(_, operands) => Success(GenericVisit(v, AllIdentifiers(operands), acc))
    case Function(call) =>
      (match v.descriptorFields(call)
       case None => Failure(MetadataFetchError(call))
       case Some(fields) =>
         if |fields| != 0 then Success(DescriptorVisit(v, fields, acc))
         else Success(GenericVisit(v, AllIdentifiers(call.args), acc)))
  }

  function VisitKids(v: Visitor, kids: seq<Node>, acc: set<string>): (r: Result<set<string>, SchemaError>)
    ensures r.Success? ==> acc <= r.value
    ensures r.Success? ==> forall x :: x in r.value - acc ==> x !in v.allFields
  {
    if |kids| == 0 then Success(acc)
    else
      match Visit(v, kids[0], acc)
      case Failure(e) => Failure(e)
      case Success(acc') => VisitKids(v, kids[1..], acc')
  }

  /** The entry point: builds the visitor from the metadata (failing when the
      metadata is unreachable) and walks the script from an empty set. */
  function GetNonExistentFields(
    meta: Metadata, script: Node, datatypeFilter: Option<set<string>>, specialFields: set<string>,
    deconstruct: string -> string, descriptorFields: FunctionCall -> Option<seq<string>>): (r: Result<set<string>, SchemaError>)
    ensures meta.Unreachable? ==> r == Failure(MetadataUnavailable)
    ensures meta.Reachable? && r.Success? ==>
      forall x :: x in r.value ==> x !in AllFields(meta.fieldsByDatatype, datatypeFilter)
  {
    match meta
    case Unreachable => Failure(MetadataUnavailable)
    case Reachable(fbd) =>
      Visit(Visitor(AllFields(fbd, datatypeFilter), specialFields, deconstruct, descriptorFields), script, {})
  }

  // ---------------------------------------------------------------------------
  // Reference definition: which names a tree reports, stated without threading.

  /** Names a generic visit reports for a list of identifiers. */
  function GenericMissing(v: Visitor, names: seq<string>): set<string>
  {
    set x | x in names && v.deconstruct(x) !in v.allFields && v.deconstruct(x) !in v.specialFields :: v.deconstruct(x)
  }

  /** Names reported for a descriptor's declared fields. */
  function DescriptorMissing(v: Visitor, fields: seq<string>): set<string>
  {
    set f | f in fields && v.deconstruct(f) !in v.allFields && f !in v.specialFields :: v.deconstruct(f)
  }

  /** Every descriptor lookup in the tree succeeds. */
  predicate LookupsSucceed(v: Visitor, n: Node)
  {
    match n
    case Compare(_, _) => true
    case Function(call) => v.descriptorFields(call).Some?
    case _ => forall i :: 0 <= i < |n.kids| ==> LookupsSucceed(v, n.kids[i])
  }

  /** The names the tree reports. */
  function Missing(v: Visitor, n: Node): set<string>
  {
    match n
    case Compare(_, operands) => GenericMissing(v, AllIdentifiers(operands))
    case Function(call) =>
      (match v.descriptorFields(call)
       case None => {}
       case Some(fields) =>
         if |fields| != 0 then DescriptorMissing(v, fields) else GenericMissing(v, AllIdentifiers(call.args)))
    case _ => MissingKids(v, n.kids)
  }

  function MissingKids(v: Visitor, kids: seq<Node>): set<string>
  {
    if |kids| == 0 then {} else Missing(v, kids[0]) + MissingKids(v, kids[1..])
  }

  // ---------------------------------------------------------------------------
  // Lemmas

  lemma {:induction false} GenericVisitIsUnion(v: Visitor, names: seq<string>, acc: set<string>)
    ensures GenericVisit(v, names, acc) == acc + GenericMissing(v, names)
    decreases |names|
  {
    if |names| > 0 {
      var n := v.deconstruct(names[0]);
      GenericVisitIsUnion(v, names[1..], AddField(v, n, n, acc));
      assert forall x :: x in names <==> x == names[0] || x in names[1..];
    }
  }

  lemma {:induction false} DescriptorVisitIsUnion(v: Visitor, fields: seq<string>, acc: set<string>)
    ensures DescriptorVisit(v, fields, acc) == acc + DescriptorMissing(v, fields)
    decreases |fields|
  {
    if |fields| > 0 {
      DescriptorVisitIsUnion(v, fields[1..], AddField(v, v.deconstruct(fields[0]), fields[0], acc));
      assert forall x :: x in fields <==> x == fields[0] || x in fields[1..];
    }
  }

  /** The threaded walk agrees with the reference definition: it succeeds exactly
      when every descriptor lookup succeeds, and then it adds exactly the
      reported names to the incoming set. */
  lemma {:induction false} VisitMatchesReference(v: Visitor, n: Node, acc: set<string>)
    ensures Visit(v, n, acc).Success? <==> LookupsSucceed(v, n)
    ensures Visit(v, n, acc).Success? ==> Visit(v, n, acc).value == acc + Missing(v, n)
  {
    match n
    case Compare(_, operands) => GenericVisitIsUnion(v, AllIdentifiers(operands), acc);
    case Function(call) =>
      if v.descriptorFields(call).Some? {
        var fields := v.descriptorFields(call).value;
        if |fields| != 0 {
          DescriptorVisitIsUnion(v, fields, acc);
        } else {
          GenericVisitIsUnion(v, AllIdentifiers(call.args), acc);
        }
      }
    case _ => VisitKidsMatchesReference(v, n.kids, acc);
  }

  lemma {:induction false} VisitKidsMatchesReference(v: Visitor, kids: seq<Node>, acc: set<string>)
    ensures VisitKids(v, kids, acc).Success? <==> forall i :: 0 <= i < |kids| ==> LookupsSucceed(v, kids[i])
    ensures VisitKids(v, kids, acc).Success? ==> VisitKids(v, kids, acc).value == acc + MissingKids(v, kids)
  {
    if |kids| > 0 {
      VisitMatchesReference(v, kids[0], acc);
      match Visit(v, kids[0], acc)
      case Failure(_) =>
      case Success(acc') =>
        VisitKidsMatchesReference(v, kids[1..], acc');
        assert forall i :: 1 <= i < |kids| ==> kids[i] == kids[1..][i - 1];
    }
  }

  /** Descriptor fields take precedence: when the descriptor declares fields,
      the call's own arguments do not matter. */
  lemma DescriptorFieldsTakePrecedence(v: Visitor, call: FunctionCall, fields: seq<string>, acc: set<string>)
    requires v.descriptorFields(call) == Some(fields) && |fields| != 0
    ensures Visit(v, Function(call), acc) == Success(acc + DescriptorMissing(v, fields))
  {
    DescriptorVisitIsUnion(v, fields, acc);
  }

  /** Inside a function the special-field check uses the raw declared name, so a
      declared `_ANYFIELD_` is tolerated whatever its deconstructed form is. */
  lemma AnyFieldToleratedInFunction(v: Visitor, call: FunctionCall, acc: set<string>)
    requires v.descriptorFields(call) == Some(["_ANYFIELD_"])
    requires "_ANYFIELD_" in v.specialFields
    ensures Visit(v, Function(call), acc) == Success(acc)
  {
    DescriptorVisitIsUnion(v, ["_ANYFIELD_"], acc);
  }

  /** In a comparison the special-field check uses the deconstructed name: an
      identifier whose raw spelling is special but whose deconstructed name is
      neither special nor in the schema is still reported. */
  lemma ComparisonChecksDeconstructedName(v: Visitor, op: CompareOp, raw: string, acc: set<string>)
    requires raw in v.specialFields
    requires v.deconstruct(raw) !in v.specialFields && v.deconstruct(raw) !in v.allFields
    ensures Visit(v, Compare(op, [Identifier(raw)]), acc) == Success(acc + {v.deconstruct(raw)})
  {
    assert AllIdentifiers([Identifier(raw)]) == [raw] by {
      assert [Identifier(raw)][1..] == [];
    }
    GenericVisitIsUnion(v, [raw], acc);
    assert GenericMissing(v, [raw]) == {v.deconstruct(raw)};
  }

  /** Without declared fields a function node falls back to the identifiers of its arguments. */
  lemma EmptyDescriptorFallsBackToArguments(v: Visitor, call: FunctionCall, acc: set<string>)
    requires v.descriptorFields(call) == Some([])
    ensures Visit(v, Function(call), acc) == Success(acc + GenericMissing(v, AllIdentifiers(call.args)))
  {
    GenericVisitIsUnion(v, AllIdentifiers(call.args), acc);
  }

  /** A comparison whose operands are all literals contributes nothing. */
  lemma LiteralComparisonAddsNothing(v: Visitor, op: CompareOp, operands: seq<Operand>, acc: set<string>)
    requires forall i :: 0 <= i < |operands| ==> operands[i].Literal?
    ensures Visit(v, Compare(op, operands), acc) == Success(acc)
  {
    GenericVisitIsUnion(v, AllIdentifiers(operands), acc);
  }

  /** The connectives add nothing themselves: each threads the same set through
      its children, so they all agree with one another. */
  lemma ConnectivesOnlyThread(v: Visitor, kids: seq<Node>, acc: set<string>)
    ensures Visit(v, And(kids), acc) == VisitKids(v, kids, acc)
    ensures Visit(v, Not(kids), acc) == VisitKids(v, kids, acc)
    ensures Visit(v, Script(kids), acc) == VisitKids(v, kids, acc)
    ensures Visit(v, Reference(kids), acc) == VisitKids(v, kids, acc)
    ensures Visit(v, ReferenceExpression(kids), acc) == VisitKids(v, kids, acc)
    ensures LookupsSucceed(v, Script(kids)) ==> Visit(v, Script(kids), acc) == Success(acc + MissingKids(v, kids))
  {
    VisitKidsMatchesReference(v, kids, acc);
  }

  /** With an empty datatype filter no field exists, so every identifier of a
      comparison whose deconstructed name is not special is reported. */
  lemma EmptyFilterReportsEveryNonSpecialIdentifier(
    fbd: map<string, set<string>>, op: CompareOp, operands: seq<Operand>, specialFields: set<string>,
    deconstruct: string -> string, descriptorFields: FunctionCall -> Option<seq<string>>)
    ensures GetNonExistentFields(Reachable(fbd), Compare(op, operands), Some({}), specialFields, deconstruct, descriptorFields)
      == Success(set x | x in AllIdentifiers(operands) && deconstruct(x) !in specialFields :: deconstruct(x))
  {
    var v := Visitor(AllFields(fbd, Some({})), specialFields, deconstruct, descriptorFields);
    GenericVisitIsUnion(v, AllIdentifiers(operands), {});
    assert v.allFields == {};
    assert Visit(v, Compare(op, operands), {}) == Success(GenericVisit(v, AllIdentifiers(operands), {}));
    assert GenericVisit(v, AllIdentifiers(operands), {}) == GenericMissing(v, AllIdentifiers(operands));
    var expected := set x | x in AllIdentifiers(operands) && deconstruct(x) !in specialFields :: deconstruct(x);
    assert GenericMissing(v, AllIdentifiers(operands)) == expected by {
      forall y | y in expected ensures y in GenericMissing(v, AllIdentifiers(operands)) {
        var x :| x in AllIdentifiers(operands) && deconstruct(x) !in specialFields && deconstruct(x) == y;
        assert y !in v.allFields;
      }
    }
  }

  /** A comparison on a field absent from the schema and from the special fields
      reports exactly that field. */
  lemma GhostFieldIsReported(
    fbd: map<string, set<string>>, datatypeFilter: Option<set<string>>, specialFields: set<string>,
    deconstruct: string -> string, descriptorFields: FunctionCall -> Option<seq<string>>)
    requires "GHOST" !in AllFields(fbd, datatypeFilter) && "GHOST" !in specialFields
    requires deconstruct("GHOST") == "GHOST"
    ensures GetNonExistentFields(Reachable(fbd), Script([Compare(EQ, [Identifier("GHOST"), Literal("x")])]),
      datatypeFilter, specialFields, deconstruct, descriptorFields) == Success({"GHOST"})
  {
    var v := Visitor(AllFields(fbd, datatypeFilter), specialFields, deconstruct, descriptorFields);
    var ops := [Identifier("GHOST"), Literal("x")];
    assert AllIdentifiers(ops) == ["GHOST"] by {
      assert AllIdentifiers(ops[1..]) == [] by {
        assert ops[1..][1..] == [];
      }
    }
    GenericVisitIsUnion(v, ["GHOST"], {});
    assert GenericMissing(v, ["GHOST"]) == {"GHOST"};
    var c := Compare(EQ, ops);
    var empty: set<string> := {};
    assert GenericVisit(v, ["GHOST"], empty) == {"GHOST"};
    assert Visit(v, c, empty) == Success(GenericVisit(v, AllIdentifiers(ops), empty));
    assert Visit(v, c, empty) == Success({"GHOST"});
    assert [c][0] == c && [c][1..] == [];
    assert VisitKids(v, [c], {}) == Success({"GHOST"});
    assert Visit(v, Script([Compare(EQ, ops)]), {}) == Success({"GHOST"});
  }

  // ---------------------------------------------------------------------------
  // The walk restricted to the declared overrides

  /** The walk with only the overrides the visitor declares: script, AND, NOT,
      reference and reference-expression nodes descend, comparisons and
      functions are checked, and an OR node, which has no override, hands the
      set back unchanged, as a base visitor that does not descend would. */
  function VisitDeclared(v: Visitor, n: Node, acc: set<string>): (r: Result<set<string>, SchemaError>)
    ensures r.Success? ==> acc <= r.value
    ensures r.Success? ==> forall x :: x in r.value - acc ==> x !in v.allFields
    ensures n.Or? ==> r == Success(acc)
  {
    match n
    case Or(_) => Success(acc)
    case Compare(_, _) => Visit(v, n, acc)
    case Function(_) => Visit(v, n, acc)
    case _ => VisitKidsDeclared(v, n.kids, acc)
  }

  function VisitKidsDeclared(v: Visitor, kids: seq<Node>, acc: set<string>): (r: Result<set<string>, SchemaError>)
    ensures r.Success? ==> acc <= r.value
    ensures r.Success? ==> forall x :: x in r.value - acc ==> x !in v.allFields
  {
    if |kids| == 0 then Success(acc)
    else
      match VisitDeclared(v, kids[0], acc)
      case Failure(e) => Failure(e)
      case Success(acc') => VisitKidsDeclared(v, kids[1..], acc')
  }

  /** The tree holds no OR node. */
  predicate OrFree(n: Node)
  {
    match n
    case Or(_) => false
    case Compare(_, _) => true
    case Function(_) => true
    case _ => forall i :: 0 <= i < |n.kids| ==> OrFree(n.kids[i])
  }

  /** On a tree without OR the two walks agree, so they differ only below OR nodes. */
  lemma {:induction false} VisitDeclaredAgrees(v: Visitor, n: Node, acc: set<string>)
    requires OrFree(n)
    ensures VisitDeclared(v, n, acc) == Visit(v, n, acc)
    decreases n, 1
  {
    match n
    case Or(_) => assert false;
    case Compare(_, _) =>
    case Function(_) =>
    case Script(kids) => VisitKidsDeclaredAgrees(v, kids, acc);
    case And(kids) => VisitKidsDeclaredAgrees(v, kids, acc);
    case Not(kids) => VisitKidsDeclaredAgrees(v, kids, acc);
    case Reference(kids) => VisitKidsDeclaredAgrees(v, kids, acc);
    case ReferenceExpression(kids) => VisitKidsDeclaredAgrees(v, kids, acc);
  }

  lemma {:induction false} VisitKidsDeclaredAgrees(v: Visitor, kids: seq<Node>, acc: set<string>)
    requires forall i :: 0 <= i < |kids| ==> OrFree(kids[i])
    ensures VisitKidsDeclared(v, kids, acc) == VisitKids(v, kids, acc)
    decreases kids, 0
  {
    if |kids| > 0 {
      VisitDeclaredAgrees(v, kids[0], acc);
      match Visit(v, kids[0], acc)
      case Failure(_) =>
      case Success(acc') =>
        assert forall i :: 0 <= i < |kids[1..]| ==> kids[1..][i] == kids[i + 1];
        VisitKidsDeclaredAgrees(v, kids[1..], acc');
    }
  }

  /** `FOO == 'a' || GHOST == 'b'` with only FOO in the schema: the descending
      walk reports GHOST, the walk with only the declared overrides reports
      nothing. */
  lemma OrHidesGhostField()
    ensures var v := Visitor({"FOO"}, {}, x => x, c => None);
            var q := Or([Compare(EQ, [Identifier("FOO"), Literal("a")]), Compare(EQ, [Identifier("GHOST"), Literal("b")])]);
            Visit(v, q, {}) == Success({"GHOST"}) && VisitDeclared(v, q, {}) == Success({})
  {
    var v := Visitor({"FOO"}, {}, x => x, c => None);
    var foo := Compare(EQ, [Identifier("FOO"), Literal("a")]);
    var missing := Compare(EQ, [Identifier("GHOST"), Literal("b")]);
    var empty: set<string> := {};
    assert AllIdentifiers([Identifier("FOO"), Literal("a")]) == ["FOO"] by {
      assert [Identifier("FOO"), Literal("a")][1..] == [Literal("a")];
      assert AllIdentifiers([Literal("a")]) == [] by {
        assert [Literal("a")][1..] == [];
      }
    }
    assert AllIdentifiers([Identifier("GHOST"), Literal("b")]) == ["GHOST"] by {
      assert [Identifier("GHOST"), Literal("b")][1..] == [Literal("b")];
      assert AllIdentifiers([Literal("b")]) == [] by {
        assert [Literal("b")][1..] == [];
      }
    }
    GenericVisitIsUnion(v, ["FOO"], empty);
    GenericVisitIsUnion(v, ["GHOST"], empty);
    assert GenericMissing(v, ["FOO"]) == {};
    assert GenericMissing(v, ["GHOST"]) == {"GHOST"};
    assert Visit(v, foo, empty) == Success(empty);
    assert GenericVisit(v, ["GHOST"], empty) == {"GHOST"};
    assert Visit(v, missing, empty) == Success(GenericVisit(v, ["GHOST"], empty));
    assert Visit(v, missing, empty) == Success({"GHOST"});
    var kids := [foo, missing];
    assert kids[0] == foo && kids[1..] == [missing];
    assert [missing][0] == missing && [missing][1..] == [];
    assert VisitKids(v, [missing], empty) == Success({"GHOST"});
    assert VisitKids(v, kids, empty) == Success({"GHOST"});
  }
}
