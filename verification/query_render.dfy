/** Pieces of the formatted query printer that render single nodes in plain
    (non-HTML) mode: string literals with their escapes, the binary comparison
    and regex operators, the statements of a script, and method calls with
    their allow-list. Children are given already rendered. */
module QueryRender {
  import opened Strings
  import opened Wrappers

  const Backslash: char := '\\'
  const Quote: char := '\''

  /** The ways rendering a node fails. */
  datatype RenderError =
    | IllegalArgument(message: string)
    | MethodCompositionError(methodName: string)
    | StringIndexOutOfBounds

  // ---------------------------------------------------------------------------
  // Escapes

  /** Every `c` in `s` preceded by a backslash. */
  function Escaped(s: string, c: char): (r: string)
    ensures |r| >= |s|
  {
    if |s| == 0 then ""
    else (if s[0] == c then [Backslash, c] else [s[0]]) + Escaped(s[1..], c)
  }

  /** Escaping distributes over concatenation. */
  lemma {:induction false} EscapedAppend(a: string, b: string, c: char)
    ensures Escaped(a + b, c) == Escaped(a, c) + Escaped(b, c)
  {
    if |a| > 0 {
      assert (a + b)[0] == a[0];
      assert (a + b)[1..] == a[1..] + b;
      EscapedAppend(a[1..], b, c);
    } else {
      assert a + b == b;
    }
  }

  /** A string without `c` is left alone. */
  lemma {:induction false} EscapedFree(s: string, c: char)
    requires c !in s
    ensures Escaped(s, c) == s
  {
    if |s| > 0 {
      assert c !in s[1..];
      EscapedFree(s[1..], c);
    }
  }

  /** The decoder for one escaped character: a backslash followed by `c`
      stands for `c`; everything else stands for itself. */
  function Unescaped(s: string, c: char): (r: string)
    ensures |r| <= |s|
  {
    if |s| == 0 then ""
    else if |s| >= 2 && s[0] == Backslash && s[1] == c then [c] + Unescaped(s[2..], c)
    else [s[0]] + Unescaped(s[1..], c)
  }

  /** Decoding undoes escaping, for every string and every escaped character. */
  lemma {:induction false} UnescapedEscaped(s: string, c: char)
    ensures Unescaped(Escaped(s, c), c) == s
  {
    if |s| > 0 {
      var rest := Escaped(s[1..], c);
      UnescapedEscaped(s[1..], c);
      if s[0] == c {
        var e := [Backslash, c] + rest;
        assert Escaped(s, c) == e;
        assert e[2..] == rest;
      } else {
        var e := [s[0]] + rest;
        assert Escaped(s, c) == e;
        assert e[1..] == rest;
        if |rest| > 0 && s[0] == Backslash {
          assert |s[1..]| > 0;
          assert rest[0] == (if s[1] == c then Backslash else s[1]);
          assert rest[0] != c;
        }
      }
      assert s == [s[0]] + s[1..];
    }
  }

  /** The general string decoder: a backslash followed by any character stands
      for that character; a final lone backslash stands for itself. */
  function UnescapeAll(s: string): (r: string)
    ensures |r| <= |s|
  {
    if |s| == 0 then ""
    else if |s| >= 2 && s[0] == Backslash then [s[1]] + UnescapeAll(s[2..])
    else [s[0]] + UnescapeAll(s[1..])
  }

  /** The body of a literal outside a regex: backslashes doubled, then quotes
      escaped. */
  function PlainBody(literal: string): string
  {
    Escaped(Escaped(literal, Backslash), Quote)
  }

  /** The general decoder reads the plain body back as the literal. */
  lemma {:induction false} PlainBodyDecodes(literal: string)
    ensures UnescapeAll(PlainBody(literal)) == literal
  {
    if |literal| > 0 {
      var x := literal[0];
      var rest := literal[1..];
      assert literal == [x] + rest;
      EscapedAppend([x], rest, Backslash);
      EscapedAppend(Escaped([x], Backslash), Escaped(rest, Backslash), Quote);
      assert PlainBody(literal) == PlainBody([x]) + PlainBody(rest);
      PlainBodyDecodes(rest);
      assert Escaped([x], Backslash) == (if x == Backslash then [Backslash, Backslash] else [x]);
      if x == Backslash {
        assert Escaped([Backslash, Backslash], Quote) == [Backslash, Backslash];
        var e := [Backslash, Backslash] + PlainBody(rest);
        assert e[2..] == PlainBody(rest);
      } else if x == Quote {
        var e := [Backslash, Quote] + PlainBody(rest);
        assert e[2..] == PlainBody(rest);
      } else {
        var e := [x] + PlainBody(rest);
        assert e[1..] == PlainBody(rest);
      }
    }
  }

  // ---------------------------------------------------------------------------
  // String literals

  /** The kinds of ancestor that matter for a string literal. */
  datatype Ancestor = Reference | RegexMatch | RegexNotMatch | OtherNode

  /** Whether the nearest ancestor that is not a reference is `=~` or `!~`;
      ancestors are listed from the parent upwards, and running out of them
      counts as no regex. */
  predicate InRegex(ancestors: seq<Ancestor>)
  {
    if |ancestors| == 0 then false
    else if ancestors[0] == Reference then InRegex(ancestors[1..])
    else ancestors[0] == RegexMatch || ancestors[0] == RegexNotMatch
  }

  /** References between a literal and its operator do not change the context. */
  lemma {:induction false} ReferencesAreTransparent(refs: nat, rest: seq<Ancestor>)
    ensures InRegex(seq(refs, _ => Reference) + rest) == InRegex(rest)
  {
    if refs > 0 {
      var a := seq(refs, _ => Reference) + rest;
      assert a[0] == Reference;
      assert a[1..] == seq(refs - 1, _ => Reference) + rest;
      ReferencesAreTransparent(refs - 1, rest);
    } else {
      assert seq(refs, _ => Reference) + rest == rest;
    }
  }

  /** Escaping up to and including the next quote adds the quote-free gap,
      a backslash and the quote. */
  lemma EscapeUpToQuote(literal: string, begin: nat, index: nat)
    requires begin <= index < |literal| && literal[index] == Quote
    requires forall i :: begin <= i < index ==> literal[i] != Quote
    ensures Escaped(literal[..index + 1], Quote)
      == Escaped(literal[..begin], Quote) + literal[begin..index] + [Backslash, Quote]
  {
    var gap := literal[begin..index];
    assert Quote !in gap;
    EscapedFree(gap, Quote);
    assert literal[..index + 1] == literal[..begin] + gap + [Quote];
    EscapedAppend(literal[..begin] + gap, [Quote], Quote);
    EscapedAppend(literal[..begin], gap, Quote);
  }

  /** Escaping a quote-free remainder adds it unchanged. */
  lemma EscapeRemainder(literal: string, begin: nat)
    requires begin <= |literal|
    requires forall i :: begin <= i < |literal| ==> literal[i] != Quote
    ensures Escaped(literal, Quote) == Escaped(literal[..begin], Quote) + literal[begin..]
  {
    var tail := literal[begin..];
    assert Quote !in tail;
    EscapedFree(tail, Quote);
    assert literal == literal[..begin] + tail;
    EscapedAppend(literal[..begin], tail, Quote);
  }

  /** The escape loop of the string literal visit: copies the literal up to each
      quote, then a backslash and the quote, then the remainder. */
  method EscapeQuotes(literal: string) returns (r: string)
    ensures r == Escaped(literal, Quote)
  {
    var index := IndexOf(literal, Quote, 0);
    if index == -1 {
      EscapedFree(literal, Quote);
      return literal;
    }
    var begin := 0;
    var builder := "";
    while index != -1
      invariant 0 <= begin <= |literal|
      invariant index == IndexOf(literal, Quote, begin)
      invariant builder == Escaped(literal[..begin], Quote)
      decreases |literal| - begin
    {
      var gap := literal[begin..index];
      EscapeUpToQuote(literal, begin, index);
      builder := builder + gap + [Backslash, Quote];
      begin := index + 1;
      index := IndexOf(literal, Quote, begin);
    }
    var tail := literal[begin..];
    EscapeRemainder(literal, begin);
    r := builder + tail;
  }

  /** The text of a string literal: quoted, quotes escaped, and backslashes
      doubled unless the literal is a regex operand. */
  method VisitStringLiteral(literal: string, ancestors: seq<Ancestor>) returns (r: string)
    ensures |r| >= 2 && r[0] == Quote && r[|r| - 1] == Quote
    ensures InRegex(ancestors) ==> Unescaped(r[1..|r| - 1], Quote) == literal
    ensures !InRegex(ancestors) ==> r[1..|r| - 1] == PlainBody(literal) && UnescapeAll(r[1..|r| - 1]) == literal
    ensures forall i :: 1 <= i < |r| - 1 && r[i] == Quote ==> r[i - 1] == Backslash
  {
    var text := literal;
    if !InRegex(ancestors) {
      text := Escaped(literal, Backslash);
    }
    var body := EscapeQuotes(text);
    r := [Quote] + body + [Quote];
    assert r[1..|r| - 1] == body;
    if InRegex(ancestors) {
      UnescapedEscaped(literal, Quote);
    } else {
      PlainBodyDecodes(literal);
    }
    QuotesAreEscaped(text);
    forall i | 1 <= i < |r| - 1 && r[i] == Quote
      ensures r[i - 1] == Backslash
    {
      assert body[i - 1] == Quote;
    }
  }

  /** Every quote of an escaped body directly follows a backslash, so no quote
      ends the literal early. */
  lemma {:induction false} QuotesAreEscaped(s: string)
    ensures forall i :: 0 <= i < |Escaped(s, Quote)| && Escaped(s, Quote)[i] == Quote ==>
      i > 0 && Escaped(s, Quote)[i - 1] == Backslash
  {
    if |s| > 0 {
      QuotesAreEscaped(s[1..]);
      var rest := Escaped(s[1..], Quote);
      var head := if s[0] == Quote then [Backslash, Quote] else [s[0]];
      var e := head + rest;
      assert Escaped(s, Quote) == e;
      forall i | 0 <= i < |e| && e[i] == Quote
        ensures i > 0 && e[i - 1] == Backslash
      {
        if i >= |head| {
          var j := i - |head|;
          assert rest[j] == Quote;
          assert j > 0 && rest[j - 1] == Backslash;
          assert e[i - 1] == rest[j - 1];
        }
      }
    }
  }

  /** A backslash is doubled in an equality operand and kept in a regex operand. */
  lemma BackslashExample()
    ensures PlainBody("a\\d") == "a\\\\d"
    ensures Escaped("a\\d", Quote) == "a\\d"
  {
    EscapedFree("a\\d", Quote);
    var s := "a\\d";
    assert s[1..] == "\\d" && s[1..][1..] == "d";
    assert Escaped("d", Backslash) == "d";
    assert Escaped("\\d", Backslash) == "\\\\d";
    assert Escaped(s, Backslash) == "a\\\\d";
    EscapedFree("a\\\\d", Quote);
  }

  /** A quote is escaped wherever the literal is. */
  lemma QuoteExample()
    ensures Escaped("it's", Quote) == "it\\'s"
  {
    var s := "it's";
    assert s[1..] == "t's" && s[1..][1..] == "'s" && s[1..][1..][1..] == "s";
    assert Escaped("s", Quote) == "s";
    assert Escaped("'s", Quote) == "\\'s";
    assert Escaped("t's", Quote) == "t\\'s";
  }

  // ---------------------------------------------------------------------------
  // Binary operators

  datatype BinaryOp = EQ | NE | LT | GT | LE | GE | ER | NR

  /** The operator's symbol. */
  function Symbol(op: BinaryOp): string
  {
    match op
    case EQ => "=="
    case NE => "!="
    case LT => "<"
    case GT => ">"
    case LE => "<="
    case GE => ">="
    case ER => "=~"
    case NR => "!~"
  }

  /** The node name in the arity error; the `!~` visit reuses the `=~` name. */
  function NodeName(op: BinaryOp): string
  {
    match op
    case EQ => "ASTEQNode"
    case NE => "ASTNENode"
    case LT => "ASTLTNode"
    case GT => "ASTGTNode"
    case LE => "ASTLENode"
    case GE => "ASTGENode"
    case ER => "ASTERNode"
    case NR => "ASTERNode"
  }

  /** A binary node with two children renders as left, the symbol between
      spaces, right; any other number of children is an illegal argument. */
  function RenderBinary(op: BinaryOp, kids: seq<string>): (r: Result<string, RenderError>)
    ensures r.Success? <==> |kids| == 2
    ensures r.Failure? ==> r.error == IllegalArgument("An " + NodeName(op) + " has more than two children")
    ensures r.Success? ==> r.value == kids[0] + [' '] + Symbol(op) + [' '] + kids[1]
  {
    if |kids| != 2 then Failure(IllegalArgument("An " + NodeName(op) + " has more than two children"))
    else Success(kids[0] + " " + Symbol(op) + " " + kids[1])
  }

  /** The first character after the symbol's space, as an index into the
      spaced symbol. */
  lemma SpacedSymbolsPrefixFree(a: BinaryOp, b: BinaryOp, x: string, y: string)
    requires [' '] + Symbol(a) + [' '] + x == [' '] + Symbol(b) + [' '] + y
    ensures a == b && x == y
  {
    var s := [' '] + Symbol(a) + [' '] + x;
    var t := [' '] + Symbol(b) + [' '] + y;
    assert s[1] == Symbol(a)[0] && t[1] == Symbol(b)[0];
    assert s[2] == (if |Symbol(a)| == 1 then ' ' else Symbol(a)[1]);
    assert t[2] == (if |Symbol(b)| == 1 then ' ' else Symbol(b)[1]);
    assert a == b;
    assert x == s[|Symbol(a)| + 2..];
    assert y == t[|Symbol(b)| + 2..];
  }

  /** Given the left operand, the rendered text determines the operator and the
      right operand: no spaced symbol is a prefix of another. */
  lemma OperatorAndRightOperandRecovered(a: BinaryOp, b: BinaryOp, left: string, x: string, y: string)
    requires RenderBinary(a, [left, x]) == RenderBinary(b, [left, y])
    ensures a == b && x == y
  {
    var s := left + [' '] + Symbol(a) + [' '] + x;
    var t := left + [' '] + Symbol(b) + [' '] + y;
    assert s[|left|..] == [' '] + Symbol(a) + [' '] + x;
    assert t[|left|..] == [' '] + Symbol(b) + [' '] + y;
    SpacedSymbolsPrefixFree(a, b, x, y);
  }

  /** The regex-not-match arity error names the regex-match node. */
  lemma NotMatchErrorNamesMatchNode()
    ensures RenderBinary(NR, ["A"]) == RenderBinary(ER, ["A"])
    ensures RenderBinary(NR, []).Failure? && RenderBinary(EQ, ["A", "B", "C"]).Failure?
  {
  }

  // ---------------------------------------------------------------------------
  // Scripts

  /** Each statement followed by "; ". */
  function Terminated(kids: seq<string>): string
  {
    if |kids| == 0 then "" else Terminated(kids[..|kids| - 1]) + kids[|kids| - 1] + "; "
  }

  /** Terminating every statement is joining them and adding one separator. */
  lemma {:induction false} TerminatedIsJoin(kids: seq<string>)
    requires |kids| > 0
    ensures Terminated(kids) == Join(kids, "; ") + "; "
  {
    var init := kids[..|kids| - 1];
    if |init| == 0 {
      assert kids == [kids[0]];
    } else {
      TerminatedIsJoin(init);
      JoinSnoc(init, kids[|kids| - 1], "; ");
      assert init + [kids[|kids| - 1]] == kids;
    }
  }

  /** The script visit appends every statement and "; " to the builder, then
      cuts the last two characters when the builder is not empty; a builder of
      one character cannot be cut. */
  method VisitScript(sb: string, kids: seq<string>) returns (r: Result<string, RenderError>)
    ensures |kids| > 0 ==> r == Success(sb + Join(kids, "; "))
    ensures |kids| == 0 && |sb| == 0 ==> r == Success("")
    ensures |kids| == 0 && |sb| == 1 ==> r == Failure(StringIndexOutOfBounds)
    ensures |kids| == 0 && |sb| >= 2 ==> r == Success(sb[..|sb| - 2])
  {
    var out := sb;
    var i := 0;
    while i < |kids|
      invariant 0 <= i <= |kids|
      invariant out == sb + Terminated(kids[..i])
    {
      assert kids[..i + 1][..i] == kids[..i];
      out := out + kids[i] + "; ";
      i := i + 1;
    }
    if |out| == 0 {
      return Success(out);
    }
    if |out| < 2 {
      return Failure(StringIndexOutOfBounds);
    }
    if |kids| > 0 {
      assert kids[..|kids|] == kids;
      TerminatedIsJoin(kids);
      assert out == (sb + Join(kids, "; ")) + "; ";
      assert out[..|out| - 2] == sb + Join(kids, "; ");
    }
    r := Success(out[..|out| - 2]);
  }

  // ---------------------------------------------------------------------------
  // Methods

  /** The methods that may be composed onto a value: none of them changes the
      collection. */
  const AllowedMethods: set<string> := {
    "contains", "retainAll", "containsAll", "isEmpty", "size", "equals", "hashCode",
    "getValueForGroup", "getGroupsForValue", "getValuesForGroups", "toString",
    "values", "min", "max", "lessThan", "greaterThan", "compareWith"}

  /** A child of a reference argument: a function call (given rendered), a
      string literal, or another node with an image. */
  datatype ArgKid = FunctionKid(rendered: string) | StringKid(image: string) | ImageKid(image: string)

  /** A method argument: a reference holding a nested method (given rendered),
      a reference with children, a number, or anything else. */
  datatype MethodArg =
    | MethodReference(rendered: string)
    | PlainReference(kids: seq<ArgKid>)
    | NumberArg(image: string)
    | OtherArg

  /** One reference child appended to the argument builder: a function call is
      appended as is; anything else after a comma when the builder is not
      empty, a string literal between quotes. */
  function AppendKid(b: string, k: ArgKid): string
  {
    match k
    case FunctionKid(rendered) => b + rendered
    case StringKid(image) => b + (if |b| > 0 then "," else "") + "'" + image + "'"
    case ImageKid(image) => b + (if |b| > 0 then "," else "") + image
  }

  function AppendKids(b: string, kids: seq<ArgKid>): string
    decreases |kids|
  {
    if |kids| == 0 then b else AppendKids(AppendKid(b, kids[0]), kids[1..])
  }

  function AppendArg(b: string, a: MethodArg): string
  {
    match a
    case MethodReference(rendered) => b + rendered
    case PlainReference(kids) => AppendKids(b, kids)
    case NumberArg(image) => b + (if |b| > 0 then "," else "") + image
    case OtherArg => b
  }

  /** The argument text: every argument appended in order to an empty builder. */
  function ArgumentText(b: string, args: seq<MethodArg>): string
    decreases |args|
  {
    if |args| == 0 then b else ArgumentText(AppendArg(b, args[0]), args[1..])
  }

  /** A method call: "." and the method name, then the arguments in
      parentheses; a name outside the allow-list is a method composition error. */
  function RenderMethod(name: string, args: seq<MethodArg>): (r: Result<string, RenderError>)
    ensures r.Success? <==> name in AllowedMethods
    ensures r.Failure? ==> r.error == MethodCompositionError(name)
    ensures r.Success? ==> r.value == "." + name + "(" + ArgumentText("", args) + ")"
  {
    if name !in AllowedMethods then Failure(MethodCompositionError(name))
    else Success("." + name + "(" + ArgumentText("", args) + ")")
  }

  /** Numbers are separated by commas. */
  function Images(args: seq<MethodArg>): seq<string>
    requires forall i :: 0 <= i < |args| ==> args[i].NumberArg?
  {
    seq(|args|, i requires 0 <= i < |args| => args[i].image)
  }

  /** Appending numbers with non-empty images to a builder joins them with
      commas after it. */
  lemma {:induction false} NumbersJoinedByCommas(b: string, args: seq<MethodArg>)
    requires |b| > 0
    requires forall i :: 0 <= i < |args| ==> args[i].NumberArg?
    ensures |args| > 0 ==> ArgumentText(b, args) == b + "," + Join(Images(args), ",")
    ensures |args| == 0 ==> ArgumentText(b, args) == b
    decreases |args|
  {
    if |args| > 0 {
      var b' := b + "," + args[0].image;
      assert AppendArg(b, args[0]) == b';
      NumbersJoinedByCommas(b', args[1..]);
      assert Images(args[1..]) == Images(args)[1..];
      if |args| > 1 {
        assert Join(Images(args), ",") == args[0].image + "," + Join(Images(args)[1..], ",");
      }
    }
  }

  /** The argument text of numbers with non-empty images is those images
      joined with commas. */
  lemma NumberArguments(args: seq<MethodArg>)
    requires |args| > 0
    requires forall i :: 0 <= i < |args| ==> args[i].NumberArg? && |args[i].image| > 0
    ensures ArgumentText("", args) == Join(Images(args), ",")
  {
    assert AppendArg("", args[0]) == args[0].image;
    NumbersJoinedByCommas(args[0].image, args[1..]);
    assert Images(args[1..]) == Images(args)[1..];
  }

  /** A function call inside a reference argument gets no comma before it, and
      a string literal argument is quoted without escaping its quotes. */
  lemma ArgumentQuirks()
    ensures ArgumentText("", [NumberArg("1"), PlainReference([FunctionKid("f:g()")])]) == "1f:g()"
    ensures ArgumentText("", [PlainReference([StringKid("it's")])]) == "'it's'"
    ensures ArgumentText("", [OtherArg, NumberArg("2")]) == "2"
  {
    var a := [NumberArg("1"), PlainReference([FunctionKid("f:g()")])];
    assert AppendArg("", a[0]) == "1";
    assert a[1..] == [PlainReference([FunctionKid("f:g()")])];
    assert AppendKids("1", [FunctionKid("f:g()")]) == "1f:g()" by {
      assert [FunctionKid("f:g()")][1..] == [];
    }
    assert ArgumentText("1", a[1..]) == ArgumentText("1f:g()", []);
    var b := [PlainReference([StringKid("it's")])];
    assert AppendKids("", [StringKid("it's")]) == "'it's'" by {
      assert [StringKid("it's")][1..] == [];
    }
    assert ArgumentText("", b) == ArgumentText("'it's'", b[1..]);
    assert b[1..] == [];
    var c := [OtherArg, NumberArg("2")];
    assert c[1..] == [NumberArg("2")] && c[1..][1..] == [];
  }

  /** Allowed methods render; a mutating method does not. */
  lemma AllowListExamples()
    ensures RenderMethod("size", []) == Success(".size()")
    ensures RenderMethod("add", [NumberArg("1")]) == Failure(MethodCompositionError("add"))
    ensures RenderMethod("contains", [PlainReference([StringKid("a")])]) == Success(".contains('a')")
  {
    assert "size" in AllowedMethods;
    assert "contains" in AllowedMethods;
    assert ArgumentText("", []) == "";
    assert RenderMethod("size", []) == Success("." + "size" + "(" + "" + ")");
    assert "." + "size" + "(" + "" + ")" == ".size()";
    var a := [PlainReference([StringKid("a")])];
    assert a[1..] == [] && [StringKid("a")][1..] == [];
    assert AppendKids("", [StringKid("a")]) == "'a'";
    assert ArgumentText("", a) == "'a'";
    assert RenderMethod("contains", a) == Success("." + "contains" + "(" + "'a'" + ")");
    assert "." + "contains" + "(" + "'a'" + ")" == ".contains('a')";
  }
}
