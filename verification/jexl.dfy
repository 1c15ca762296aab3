/** Query-tree pieces shared by the schema check and the function descriptors:
    the operands that appear under comparison and function nodes, the shape of a
    function call, and the per-field expression filters a descriptor registers. */
module Jexl {
  import opened Wrappers

  /** An operand of a comparison or an argument of a function call.
      `Alternatives` is a parenthesised disjunction of field names such as
      `(NAME || ALIAS)`, which names several fields at one argument position. */
  datatype Operand =
    | Identifier(name: string)
    | Alternatives(names: seq<string>)
    | Literal(image: string)

  /** The identifiers an operand mentions, in order. */
  function Identifiers(o: Operand): seq<string>
  {
    match o
    case Identifier(n) => [n]
    case Alternatives(ns) => ns
    case Literal(_) => []
  }

  /** The identifiers of an operand as a set. */
  function IdentifierNames(o: Operand): set<string>
  {
    set n | n in Identifiers(o)
  }

  /** The identifiers of a whole operand list, in order. */
  function AllIdentifiers(os: seq<Operand>): (r: seq<string>)
    ensures forall n :: n in r <==> exists i :: 0 <= i < |os| && n in Identifiers(os[i])
    ensures (forall i :: 0 <= i < |os| ==> os[i].Literal?) ==> r == []
  {
    if |os| == 0 then []
    else
      var rest := AllIdentifiers(os[1..]);
      assert forall i :: 0 < i < |os| ==> os[i] == os[1..][i - 1];
      Identifiers(os[0]) + rest
  }

  /** The image of an argument node: the text of a literal; a reference to a
      field has no image (null in the source). */
  function Image(o: Operand): Option<string>
  {
    match o
    case Literal(img) => Some(img)
    case _ => None
  }

  /** A call `namespace:name(args...)`. */
  datatype FunctionCall = FunctionCall(namespace: string, name: string, args: seq<Operand>)

  /** The configuration an expression filter accumulates for one field:
      whether every value is accepted, and the value patterns added to it
      (a pattern is the image of a value argument, possibly null). */
  datatype ExpressionFilter = ExpressionFilter(field: string, acceptAll: bool, patterns: seq<Option<string>>)

  /** A freshly constructed filter for `field`: accepts nothing yet. */
  function NewFilter(field: string): ExpressionFilter
  {
    ExpressionFilter(field, false, [])
  }

  type FilterMap = map<string, ExpressionFilter>

  /** The Java class a function namespace resolves to. */
  datatype FunctionClass = GroupingRequiredFilterFunctions | GeoWaveFunctions | OtherFunctions(className: string)

  /** Errors a descriptor raises; each models an exception of the source, with
      the offending detail: a class that cannot be loaded (ClassNotFound), a
      null class dereferenced (NullFunctionClass, a NullPointerException), an
      IllegalArgumentException, or an index error. */
  datatype DescriptorError =
    | ClassNotFound
    | NullFunctionClass
    | WrongFunctionClass(found: FunctionClass)
    | UnexpectedNamespace(namespace: string)
    | UnknownFunction(message: string)
    | WrongArgumentCount(message: string)
    | UnparsableFunction(call: FunctionCall)
    | ArgumentIndexOutOfBounds(index: int)
}
