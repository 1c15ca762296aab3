/** The last pass of the formatted query printer: the query text, already
    broken into lines that hold a lone "(", a closing ")" (possibly followed by
    an "&&" or "||" joining the next operand), or an expression, is re-indented
    by nesting depth, four spaces per level. HTML tags in a line are ignored
    when classifying it. */
module QueryLines {
  import opened Strings

  /** The line separator the printer uses. */
  const Newline: char := '\n'

  /** One level of indentation. */
  const Tab: string := "    "

  // ---------------------------------------------------------------------------
  // Line classification

  /** Removes every `<...>` tag: from a '<' up to the first '>' after it; a '<'
      with no '>' after it is kept. */
  function StripTags(s: string): (r: string)
    ensures |r| <= |s|
    decreases |s|
  {
    if |s| == 0 then ""
    else if s[0] == '<' && IndexOf(s, '>', 1) != -1 then StripTags(s[IndexOf(s, '>', 1) + 1..])
    else [s[0]] + StripTags(s[1..])
  }

  /** A line without '<' has no tag to remove. */
  lemma {:induction false} StripTagsNoTags(s: string)
    requires '<' !in s
    ensures StripTags(s) == s
  {
    if |s| > 0 {
      assert s[0] != '<';
      assert '<' !in s[1..];
      StripTagsNoTags(s[1..]);
    }
  }

  /** A leading tag is removed entirely. */
  lemma StripTagsLeadingTag(inside: string, s: string)
    requires '>' !in inside
    ensures StripTags("<" + inside + ">" + s) == StripTags(s)
  {
    var t := "<" + inside + ">" + s;
    assert t[|inside| + 1] == '>';
    assert forall i :: 1 <= i < |inside| + 1 ==> t[i] == inside[i - 1];
    assert IndexOf(t, '>', 1) == |inside| + 1;
    assert t[|inside| + 2..] == s;
  }

  /** A non-empty string of `ch` only. */
  predicate AllOf(s: string, ch: char)
  {
    |s| > 0 && forall i :: 0 <= i < |s| ==> s[i] == ch
  }

  /** containsOnly: after removing tags, one or more `ch` and nothing else. */
  predicate ContainsOnly(line: string, ch: char)
  {
    AllOf(StripTags(line), ch)
  }

  /** closeParensFollowedByAndOr: after removing tags, one or more ')' followed
      by " && " or " || " (with the trailing space). */
  predicate CloseParensFollowedByAndOr(line: string)
  {
    var t := StripTags(line);
    |t| >= 5 && AllOf(t[..|t| - 4], ')') && (t[|t| - 4..] == " && " || t[|t| - 4..] == " || ")
  }

  datatype LineKind = Open | Close | Plain

  /** The branch the printer takes for a line; an opening line is recognised first. */
  function Classify(line: string): LineKind
  {
    if ContainsOnly(line, '(') then Open
    else if ContainsOnly(line, ')') || CloseParensFollowedByAndOr(line) then Close
    else Plain
  }

  /** Tags are ignored when classifying a line. */
  lemma TaggedOpenLine()
    ensures ContainsOnly("<b>(</b>", '(')
    ensures Classify("<b>(</b>") == Open
  {
    assert "</b>" == "<" + "/b" + ">" + "";
    StripTagsLeadingTag("/b", "");
    assert StripTags("(</b>") == "(" + StripTags("</b>");
    assert "<b>(</b>" == "<" + "b" + ">" + "(</b>";
    StripTagsLeadingTag("b", "(</b>");
  }

  /** An empty line is neither an opening nor a closing line. */
  lemma EmptyLineIsPlain()
    ensures !ContainsOnly("", '(') && !ContainsOnly("", ')') && !CloseParensFollowedByAndOr("")
    ensures Classify("") == Plain
  {
  }

  /** Closing parentheses joined to the next operand close the level. */
  lemma ClosingOrLine()
    ensures CloseParensFollowedByAndOr(")) || ")
  {
    var t := ")) || ";
    StripTagsNoTags(t);
    assert t[..2] == "))";
    assert t[2..] == " || ";
  }

  /** The operator must be followed by its space. */
  lemma OperatorWithoutSpace()
    ensures !CloseParensFollowedByAndOr(") &&")
  {
    StripTagsNoTags(") &&");
  }

  /** A closing line joined by "&&" is a closing line. */
  lemma ClosingAndLine()
    ensures Classify(") && ") == Close
  {
    var t := ") && ";
    StripTagsNoTags(t);
    assert t[0] == ')' && t[1] == ' ';
    assert !AllOf(t, '(');
    assert t[..1] == ")";
    assert t[1..] == " && ";
  }

  /** An expression line is plain. */
  lemma ExpressionLineIsPlain()
    ensures Classify("A == 'b'") == Plain
  {
    var t := "A == 'b'";
    StripTagsNoTags(t);
    assert t[0] == 'A';
    assert t[..|t| - 4] == "A ==";
  }

  // ---------------------------------------------------------------------------
  // Depth and indentation

  function Delta(k: LineKind): int
  {
    match k
    case Open => 1
    case Close => -1
    case Plain => 0
  }

  /** The depth after the given lines: one up per opening line, one down per
      closing line; it may go negative. */
  function Depth(lines: seq<string>): int
  {
    if |lines| == 0 then 0 else Depth(lines[..|lines| - 1]) + Delta(Classify(lines[|lines| - 1]))
  }

  /** The number of lines of the given kind. */
  function CountKind(lines: seq<string>, k: LineKind): nat
  {
    if |lines| == 0 then 0 else (if Classify(lines[0]) == k then 1 else 0) + CountKind(lines[1..], k)
  }

  /** The depth is the number of opening lines minus the number of closing lines. */
  lemma {:induction false} DepthCounts(lines: seq<string>)
    ensures Depth(lines) == CountKind(lines, Open) - CountKind(lines, Close)
  {
    if |lines| > 0 {
      var init := lines[..|lines| - 1];
      DepthCounts(init);
      CountKindSnoc(init, lines[|lines| - 1], Open);
      CountKindSnoc(init, lines[|lines| - 1], Close);
      assert init + [lines[|lines| - 1]] == lines;
    }
  }

  lemma {:induction false} CountKindSnoc(lines: seq<string>, line: string, k: LineKind)
    ensures CountKind(lines + [line], k) == CountKind(lines, k) + (if Classify(line) == k then 1 else 0)
  {
    if |lines| == 0 {
      assert [line][1..] == [];
    } else {
      assert (lines + [line])[0] == lines[0];
      assert (lines + [line])[1..] == lines[1..] + [line];
      CountKindSnoc(lines[1..], line, k);
    }
  }

  /** `n` levels of indentation; none when `n` is not positive. */
  function Spaces(n: int): (r: string)
    ensures |r| == if n <= 0 then 0 else 4 * n
    ensures forall i :: 0 <= i < |r| ==> r[i] == ' '
  {
    if n <= 0 then "" else Spaces(n - 1) + Tab
  }

  /** A leading tag never changes how a line is classified. */
  lemma ClassifyIgnoresTags(inside: string, line: string)
    requires '>' !in inside
    ensures ContainsOnly("<" + inside + ">" + line, '(') == ContainsOnly(line, '(')
    ensures ContainsOnly("<" + inside + ">" + line, ')') == ContainsOnly(line, ')')
    ensures CloseParensFollowedByAndOr("<" + inside + ">" + line) == CloseParensFollowedByAndOr(line)
    ensures Classify("<" + inside + ">" + line) == Classify(line)
  {
    StripTagsLeadingTag(inside, line);
  }

  /** An opening line is never a closing line, so the order in which the
      printer tests them does not matter. */
  lemma OpenLineIsNotClose(line: string)
    requires ContainsOnly(line, '(')
    ensures !ContainsOnly(line, ')') && !CloseParensFollowedByAndOr(line)
  {
    var t := StripTags(line);
    assert t[0] == '(';
    if |t| >= 5 {
      assert t[..|t| - 4][0] == t[0];
    }
  }

  /** The level line `i` is printed at: the depth before it, one less for a
      closing line. */
  function Level(lines: seq<string>, i: nat): int
    requires i < |lines|
  {
    if Classify(lines[i]) == Close then Depth(lines[..i]) - 1 else Depth(lines[..i])
  }

  /** The printed lines: each input line, unchanged, after its indentation. */
  function Formatted(lines: seq<string>): (r: seq<string>)
    ensures |r| == |lines|
    ensures forall i :: 0 <= i < |lines| ==> r[i] == Spaces(Level(lines, i)) + lines[i]
  {
    seq(|lines|, i requires 0 <= i < |lines| => Spaces(Level(lines, i)) + lines[i])
  }

  /** The indentation loop of the printer: `n` times four spaces. */
  method AddTabs(res: string, n: int) returns (r: string)
    ensures r == res + Spaces(n)
  {
    r := res;
    var i := 0;
    while i < n
      invariant n <= 0 ==> i == 0
      invariant n > 0 ==> 0 <= i <= n
      invariant r == res + Spaces(i)
    {
      r := r + Tab;
      i := i + 1;
    }
  }

  /** What the printer has produced after the first `k` lines: those lines
      joined with newlines, and a newline after them unless they are all. */
  function Printed(lines: seq<string>, k: nat): string
    requires k <= |lines|
  {
    if k == 0 then ""
    else Join(Formatted(lines)[..k], [Newline]) + (if k < |lines| then [Newline] else "")
  }

  /** After every line, the printer has produced the joined lines. */
  lemma PrintedAll(lines: seq<string>)
    ensures Printed(lines, |lines|) == Join(Formatted(lines), [Newline])
  {
    assert Formatted(lines)[..|lines|] == Formatted(lines);
  }

  /** Printing one more line appends its indentation, the line, and a newline
      unless it is the last. */
  lemma PrintedStep(lines: seq<string>, k: nat)
    requires k < |lines|
    ensures Printed(lines, k + 1)
      == Printed(lines, k) + Spaces(Level(lines, k)) + lines[k] + (if k + 1 < |lines| then [Newline] else "")
  {
    var f := Formatted(lines);
    assert f[..k + 1] == f[..k] + [f[k]];
    if k > 0 {
      JoinSnoc(f[..k], f[k], [Newline]);
    } else {
      assert f[..1] == [f[0]];
    }
  }

  /** The depth after one more line. */
  lemma DepthStep(lines: seq<string>, k: nat)
    requires k < |lines|
    ensures Depth(lines[..k + 1]) == Depth(lines[..k]) + Delta(Classify(lines[k]))
  {
    assert lines[..k + 1][..k] == lines[..k];
  }

  /** One step of the printer's loop: an opening line is indented at the
      current depth and then raises it, a closing line lowers the depth and is
      then indented, any other line is indented at the current depth. */
  method IndentLine(res: string, numTabs: int, line: string) returns (res': string, numTabs': int)
    ensures numTabs' == numTabs + Delta(Classify(line))
    ensures res' == res + Spaces(if Classify(line) == Close then numTabs - 1 else numTabs)
  {
    if ContainsOnly(line, '(') {
      res' := AddTabs(res, numTabs);
      numTabs' := numTabs + 1;
    } else if ContainsOnly(line, ')') || CloseParensFollowedByAndOr(line) {
      numTabs' := numTabs - 1;
      res' := AddTabs(res, numTabs');
    } else {
      res' := AddTabs(res, numTabs);
      numTabs' := numTabs;
    }
  }

  /** formatBuiltQuery: splits the query at newlines (dropping trailing empty
      lines), indents each line by the current depth, and joins the lines with
      newlines, no newline after the last one. */
  method FormatBuiltQuery(query: string) returns (res: string)
    ensures res == Join(Formatted(JavaSplit(query, Newline)), [Newline])
  {
    var lines := JavaSplit(query, Newline);
    res := FormatLines(lines);
  }

  /** The loop of formatBuiltQuery over the split lines. */
  method FormatLines(lines: seq<string>) returns (res: string)
    ensures res == Join(Formatted(lines), [Newline])
  {
    res := "";
    var numTabs := 0;
    var k := 0;
    while k < |lines|
      invariant 0 <= k <= |lines|
      invariant numTabs == Depth(lines[..k])
      invariant res == Printed(lines, k)
    {
      var line := lines[k];
      DepthStep(lines, k);
      res, numTabs := IndentLine(res, numTabs, line);
      if k != |lines| - 1 {
        res := res + line + [Newline];
      } else {
        res := res + line;
      }
      PrintedStep(lines, k);
      k := k + 1;
    }
    PrintedAll(lines);
  }

  /** The depth after a run of expression lines is unchanged. */
  lemma {:induction false} DepthPlainRun(prefix: seq<string>, plain: seq<string>)
    requires forall i :: 0 <= i < |plain| ==> Classify(plain[i]) == Plain
    ensures Depth(prefix + plain) == Depth(prefix)
    decreases |plain|
  {
    if |plain| > 0 {
      var init := plain[..|plain| - 1];
      DepthPlainRun(prefix, init);
      assert (prefix + plain)[..|prefix + plain| - 1] == prefix + init;
    } else {
      assert prefix + plain == prefix;
    }
  }

  /** A parenthesised block of expression lines prints its opening and closing
      lines at the outer level and every line inside one level deeper. */
  lemma BlockIndent(open: string, inner: seq<string>, close: string)
    requires Classify(open) == Open && Classify(close) == Close
    requires forall i :: 0 <= i < |inner| ==> Classify(inner[i]) == Plain
    ensures var f := Formatted([open] + inner + [close]);
      f[0] == open && f[|f| - 1] == close
      && forall i :: 1 <= i < |f| - 1 ==> f[i] == Tab + inner[i - 1]
  {
    var lines := [open] + inner + [close];
    assert lines[..0] == [];
    assert [open][..0] == [];
    assert Depth([open]) == 1;
    forall i | 1 <= i < |lines| - 1
      ensures Formatted(lines)[i] == Tab + inner[i - 1]
    {
      assert lines[..i] == [open] + inner[..i - 1];
      DepthPlainRun([open], inner[..i - 1]);
      assert lines[i] == inner[i - 1];
    }
    assert lines[..|lines| - 1] == [open] + inner;
    DepthPlainRun([open], inner);
  }
}
