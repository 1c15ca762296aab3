/** The gate in front of a regex index lookup: patterns that match every
    value are refused, compared as literal strings. */
module RegexLookup {

  /** The two spellings of "match anything" that are never looked up. */
  const DisallowedPatterns: set<string> := {".*", ".*?"}

  /** A pattern is accepted unless it is literally one of the disallowed ones. */
  predicate IsAcceptedPattern(pattern: string)
  {
    pattern !in DisallowedPatterns
  }

  /** Both match-anything spellings are refused, and they are the only
      strings refused: the deny set has exactly two members. */
  lemma RefusedPatterns(pattern: string)
    ensures !IsAcceptedPattern(".*") && !IsAcceptedPattern(".*?")
    ensures !IsAcceptedPattern(pattern) <==> pattern == ".*" || pattern == ".*?"
    ensures |DisallowedPatterns| == 2
  {
    assert ".*" != ".*?" by {
      assert |".*"| != |".*?"|;
    }
  }

  /** The comparison is literal: a regex equivalent to ".*" in another
      spelling still passes the gate. */
  lemma EquivalentSpellingsAccepted()
    ensures IsAcceptedPattern("(.*)")
    ensures IsAcceptedPattern(".*.*")
    ensures IsAcceptedPattern("^.*$")
  {
    assert "(.*)" != ".*" && "(.*)" != ".*?" by {
      assert |"(.*)"| == 4;
      assert "(.*)"[0] != ".*?"[0];
    }
    assert ".*.*" != ".*" && ".*.*" != ".*?" by {
      assert |".*.*"| == 4;
    }
    assert "^.*$" != ".*" && "^.*$" != ".*?" by {
      assert |"^.*$"| == 4;
    }
  }
}
