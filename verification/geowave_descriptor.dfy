/** The argument descriptor of the GeoWave spatial-relation functions
    (`geowave:intersects(FIELD, 'POLYGON(...)')` and its siblings).
    The factory validates namespace, function class, name and arity in that
    order before it asks the geometry parser for the function's details; the
    descriptor itself registers no filters and normalises no argument. */
module GeoWaveDescriptor {
  import opened Wrappers
  import opened Jexl
  import opened Strings

  /** The namespace the GeoWave functions are registered under. */
  const GeoWaveNamespace: string := "geowave"

  /** The spatial relations the descriptor accepts, in declaration order. */
  const SpatialRelationOperations: seq<string> :=
    ["contains", "covers", "coveredBy", "crosses", "intersects", "overlaps", "within"]

  /** The parameters of every spatial relation: `name(fieldName, geometryString)`. */
  const ParameterNames: seq<string> := ["fieldName", "geometryString"]

  // ---------------------------------------------------------------------------
  // Name and arity checks

  /** The linear scan over the operation names: true at the first name equal to `name`. */
  function Scan(ops: seq<string>, name: string): (r: bool)
    ensures r <==> exists i :: 0 <= i < |ops| && ops[i] == name
  {
    if |ops| == 0 then false
    else if ops[0] == name then true
    else
      var rest := Scan(ops[1..], name);
      assert forall i :: 1 <= i < |ops| ==> ops[i] == ops[1..][i - 1];
      assert rest ==> exists i :: 0 <= i < |ops| && ops[i] == name by {
        if rest {
          var i :| 0 <= i < |ops[1..]| && ops[1..][i] == name;
          assert ops[i + 1] == name;
        }
      }
      rest
  }

  predicate IsSpatialRelationship(name: string)
  {
    Scan(SpatialRelationOperations, name)
  }

  /** The scan accepts exactly the seven relation names and nothing else,
      compared case-sensitively. */
  lemma SpatialRelationships(name: string)
    ensures IsSpatialRelationship(name) <==>
      name in {"contains", "covers", "coveredBy", "crosses", "intersects", "overlaps", "within"}
  {
    if IsSpatialRelationship(name) {
      var i :| 0 <= i < |SpatialRelationOperations| && SpatialRelationOperations[i] == name;
    } else {
      assert SpatialRelationOperations[0] == "contains";
      assert SpatialRelationOperations[1] == "covers";
      assert SpatialRelationOperations[2] == "coveredBy";
      assert SpatialRelationOperations[3] == "crosses";
      assert SpatialRelationOperations[4] == "intersects";
      assert SpatialRelationOperations[5] == "overlaps";
      assert SpatialRelationOperations[6] == "within";
    }
  }

  /** The parameter names as written in the usage message: the first one, then
      each further one preceded by ", ". */
  function JoinParameters(ps: seq<string>): string
  {
    if |ps| == 0 then "" else ps[0] + JoinTail(ps[1..])
  }

  function JoinTail(ps: seq<string>): string
  {
    if |ps| == 0 then "" else ", " + ps[0] + JoinTail(ps[1..])
  }

  /** The usage text lists the parameters separated by ", ". */
  lemma {:induction false} JoinParametersIsJoin(ps: seq<string>)
    ensures JoinParameters(ps) == Join(ps, ", ")
  {
    if |ps| > 0 {
      JoinTailIsJoin(ps[0], ps[1..]);
      assert [ps[0]] + ps[1..] == ps;
    }
  }

  lemma {:induction false} JoinTailIsJoin(first: string, ps: seq<string>)
    ensures first + JoinTail(ps) == Join([first] + ps, ", ")
    decreases |ps|
  {
    if |ps| > 0 {
      JoinTailIsJoin(ps[0], ps[1..]);
      assert ([first] + ps)[1..] == [ps[0]] + ps[1..];
      assert [ps[0]] + ps[1..] == ps;
    } else {
      assert [first] + ps == [first];
    }
  }

  /** The message of the arity error. */
  function ArityMessage(name: string, ps: seq<string>): string
  {
    "Wrong number of arguments to GeoWave's " + name + " function; correct use is '"
      + name + "(" + JoinParameters(ps) + ")'"
  }

  /** The three-argument verify: fails exactly when the count differs from the
      number of declared parameters. */
  function VerifyArity(name: string, numArgs: int, ps: seq<string>): (r: Result<(), DescriptorError>)
    ensures r.Success? <==> numArgs == |ps|
    ensures r.Failure? ==> r.error == WrongArgumentCount(ArityMessage(name, ps))
  {
    if numArgs != |ps| then Failure(WrongArgumentCount(ArityMessage(name, ps))) else Success(())
  }

  /** The usage shown for a spatial relation. */
  lemma SpatialUsage(name: string)
    ensures ArityMessage(name, ParameterNames) ==
      "Wrong number of arguments to GeoWave's " + name + " function; correct use is '"
        + name + "(fieldName, geometryString)'"
  {
    assert ParameterNames[1..] == ["geometryString"];
    assert ParameterNames[1..][1..] == [];
    assert JoinTail(["geometryString"]) == ", " + "geometryString" + "";
    assert JoinParameters(ParameterNames) == "fieldName, geometryString";
  }

  /** The two-argument verify: an unknown name is rejected before the arity is
      looked at; a spatial relation needs exactly two arguments. */
  function Verify(name: string, numArgs: int): (r: Result<(), DescriptorError>)
    ensures r.Success? <==> IsSpatialRelationship(name) && numArgs == 2
    ensures !IsSpatialRelationship(name) ==> r == Failure(UnknownFunction("Unknown GeoWave function: " + name))
    ensures IsSpatialRelationship(name) && numArgs != 2 ==> r == Failure(WrongArgumentCount(
      "Wrong number of arguments to GeoWave's " + name + " function; correct use is '"
        + name + "(fieldName, geometryString)'"))
  {
    if IsSpatialRelationship(name) then
      SpatialUsage(name);
      VerifyArity(name, numArgs, ParameterNames)
    else Failure(UnknownFunction("Unknown GeoWave function: " + name))
  }

  // ---------------------------------------------------------------------------
  // Factory and descriptor

  /** The details the geometry parser extracts from a GeoWave call; only the
      fields it names are modelled. */
  datatype GeoFunction = GeoFunction(fields: set<string>)

  /** The descriptor: the function's name, its arguments and its parsed details
      (None stands for a null reference, which the factory never stores). */
  datatype Descriptor = Descriptor(name: string, args: seq<Operand>, geoFunction: Option<GeoFunction>)

  /** The factory. `functionClass` is what the namespace resolves to (None when
      it resolves to nothing, in which case the class comparison dereferences
      null) and `parse` is the geometry parser (None when it cannot parse the
      call). */
  function GetArgumentDescriptor(call: FunctionCall, functionClass: Option<FunctionClass>,
                                 parse: (string, seq<Operand>) -> Option<GeoFunction>): (r: Result<Descriptor, DescriptorError>)
    ensures call.namespace != GeoWaveNamespace ==> r == Failure(UnexpectedNamespace(call.namespace))
    ensures call.namespace == GeoWaveNamespace && functionClass.None? ==> r == Failure(NullFunctionClass)
    ensures call.namespace == GeoWaveNamespace && functionClass.Some? && functionClass.value != GeoWaveFunctions ==>
      r == Failure(WrongFunctionClass(functionClass.value))
    ensures call.namespace == GeoWaveNamespace && functionClass == Some(GeoWaveFunctions) && Verify(call.name, |call.args|).Failure? ==>
      r == Failure(Verify(call.name, |call.args|).error)
    ensures (call.namespace == GeoWaveNamespace && functionClass == Some(GeoWaveFunctions)
             && Verify(call.name, |call.args|).Success? && parse(call.name, call.args).None?) ==>
      r == Failure(UnparsableFunction(call))
    ensures r.Success? <==> (call.namespace == GeoWaveNamespace && functionClass == Some(GeoWaveFunctions)
                             && IsSpatialRelationship(call.name) && |call.args| == 2 && parse(call.name, call.args).Some?)
    ensures r.Success? ==> r.value == Descriptor(call.name, call.args, parse(call.name, call.args))
  {
    if call.namespace != GeoWaveNamespace then Failure(UnexpectedNamespace(call.namespace))
    else if functionClass.None? then Failure(NullFunctionClass)
    else if functionClass.value != GeoWaveFunctions then Failure(WrongFunctionClass(functionClass.value))
    else
      var _ :- Verify(call.name, |call.args|);
      var geoFunction := parse(call.name, call.args);
      if geoFunction.None? then Failure(UnparsableFunction(call))
      else Success(Descriptor(call.name, call.args, geoFunction))
  }

  /** The fields of the parsed function; none when there is no parsed function. */
  function Fields(d: Descriptor): (r: set<string>)
    ensures d.geoFunction.None? ==> r == {}
    ensures d.geoFunction.Some? ==> r == d.geoFunction.value.fields
  {
    match d.geoFunction
    case None => {}
    case Some(g) => g.fields
  }

  /** Every descriptor the factory hands out reports exactly the fields the
      parser found in the call. */
  lemma FactoryFields(call: FunctionCall, functionClass: Option<FunctionClass>,
                      parse: (string, seq<Operand>) -> Option<GeoFunction>)
    requires GetArgumentDescriptor(call, functionClass, parse).Success?
    ensures parse(call.name, call.args).Some?
    ensures Fields(GetArgumentDescriptor(call, functionClass, parse).value) == parse(call.name, call.args).value.fields
  {
  }

  /** The index query covers the filtering, so no expression filter is added. */
  function AddFilters(d: Descriptor, m: FilterMap): (r: FilterMap)
    ensures r == m
  {
    m
  }

  /** No argument needs normalisation. */
  function FieldsForNormalization(d: Descriptor, allFields: set<string>, arg: int): (r: set<string>)
    ensures r == {}
  {
    {}
  }

  /** Expansion of the function's fields uses OR. */
  predicate UseOrForExpansion(d: Descriptor)
    ensures UseOrForExpansion(d)
  {
    true
  }

  /** The arguments are not regular expressions. */
  predicate RegexArguments(d: Descriptor)
    ensures !RegexArguments(d)
  {
    false
  }

  /** A spatial function is never evaluated by ivarator filtering. */
  predicate AllowIvaratorFiltering(d: Descriptor)
    ensures !AllowIvaratorFiltering(d)
  {
    false
  }

  /** The namespace is checked before the function class: a call in a foreign
      namespace is rejected for its namespace whatever its class and name. */
  lemma NamespaceCheckedFirst(call: FunctionCall, functionClass: Option<FunctionClass>,
                              parse: (string, seq<Operand>) -> Option<GeoFunction>)
    requires call.namespace != GeoWaveNamespace
    ensures GetArgumentDescriptor(call, functionClass, parse).Failure?
    ensures GetArgumentDescriptor(call, functionClass, parse).error.UnexpectedNamespace?
  {
  }

  /** The name is checked before the parser is consulted: an unknown function
      is reported as unknown even when the parser would accept it. */
  lemma UnknownNameBeatsParser(call: FunctionCall, g: GeoFunction)
    requires call.namespace == GeoWaveNamespace && !IsSpatialRelationship(call.name)
    ensures GetArgumentDescriptor(call, Some(GeoWaveFunctions), (n, a) => Some(g))
      == Failure(UnknownFunction("Unknown GeoWave function: " + call.name))
  {
  }
}
