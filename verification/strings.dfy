/** String helpers with Java's semantics where the formatter relies on them:
    joining with a separator, splitting at a character the way `String.split`
    does (trailing empty pieces dropped), and `indexOf` from a position. */
module Strings {

  /** The pieces joined with `sep` between consecutive pieces. */
  function Join(xs: seq<string>, sep: string): string
  {
    if |xs| == 0 then ""
    else if |xs| == 1 then xs[0]
    else xs[0] + sep + Join(xs[1..], sep)
  }

  /** Joining one more piece adds a separator and the piece. */
  lemma {:induction false} JoinSnoc(xs: seq<string>, x: string, sep: string)
    requires |xs| > 0
    ensures Join(xs + [x], sep) == Join(xs, sep) + sep + x
  {
    if |xs| == 1 {
      assert (xs + [x])[1..] == [x];
    } else {
      assert (xs + [x])[0] == xs[0];
      assert (xs + [x])[1..] == xs[1..] + [x];
      JoinSnoc(xs[1..], x, sep);
    }
  }

  /** The pieces of `s` between occurrences of `c`, keeping every empty piece:
      n occurrences give n + 1 pieces. */
  function SplitAll(s: string, c: char): (r: seq<string>)
    ensures |r| >= 1
  {
    if |s| == 0 then [""]
    else
      var rest := SplitAll(s[1..], c);
      if s[0] == c then [""] + rest else [[s[0]] + rest[0]] + rest[1..]
  }

  /** Splitting at `c` and joining with `c` gives the string back, and no piece
      contains `c`. */
  lemma {:induction false} SplitAllJoin(s: string, c: char)
    ensures Join(SplitAll(s, c), [c]) == s
    ensures forall i :: 0 <= i < |SplitAll(s, c)| ==> c !in SplitAll(s, c)[i]
  {
    if |s| > 0 {
      var rest := SplitAll(s[1..], c);
      SplitAllJoin(s[1..], c);
      if s[0] == c {
        assert SplitAll(s, c) == [""] + rest;
        assert ([""] + rest)[1..] == rest;
        assert Join([""] + rest, [c]) == "" + [c] + Join(rest, [c]);
        assert s == [s[0]] + s[1..];
        forall i | 0 <= i < |SplitAll(s, c)| ensures c !in SplitAll(s, c)[i] {
          if i > 0 {
            assert SplitAll(s, c)[i] == rest[i - 1];
          }
        }
      } else {
        var r := [[s[0]] + rest[0]] + rest[1..];
        assert SplitAll(s, c) == r;
        if |rest| == 1 {
          assert Join(r, [c]) == [s[0]] + rest[0];
          assert Join(rest, [c]) == rest[0];
        } else {
          assert r[1..] == rest[1..];
          assert Join(r, [c]) == [s[0]] + rest[0] + [c] + Join(rest[1..], [c]);
          assert Join(rest, [c]) == rest[0] + [c] + Join(rest[1..], [c]);
        }
        assert s == [s[0]] + s[1..];
        forall i | 0 <= i < |r| ensures c !in r[i] {
          if i > 0 {
            assert r[i] == rest[i];
          } else {
            assert c !in rest[0];
          }
        }
      }
    }
  }

  /** The last piece is empty exactly when `s` is empty or ends with `c`. */
  lemma {:induction false} SplitAllLast(s: string, c: char)
    ensures var r := SplitAll(s, c); r[|r| - 1] == "" <==> |s| == 0 || s[|s| - 1] == c
  {
    if |s| > 0 {
      var rest := SplitAll(s[1..], c);
      SplitAllLast(s[1..], c);
      if s[0] == c {
        assert SplitAll(s, c)[|SplitAll(s, c)| - 1] == rest[|rest| - 1];
        if |s| > 1 {
          assert s[1..][|s[1..]| - 1] == s[|s| - 1];
        }
      } else if |rest| == 1 {
        assert SplitAll(s, c) == [[s[0]] + rest[0]];
        if |s| > 1 {
          assert s[1..][|s[1..]| - 1] == s[|s| - 1];
        }
      } else {
        assert SplitAll(s, c)[|SplitAll(s, c)| - 1] == rest[|rest| - 1];
        assert s[1..][|s[1..]| - 1] == s[|s| - 1];
      }
    }
  }

  /** Drops the empty pieces at the end. */
  function DropTrailingEmpty(xs: seq<string>): (r: seq<string>)
    ensures |r| <= |xs| && r == xs[..|r|]
    ensures |r| > 0 ==> r[|r| - 1] != ""
    ensures forall i :: |r| <= i < |xs| ==> xs[i] == ""
  {
    if |xs| == 0 then []
    else if xs[|xs| - 1] == "" then DropTrailingEmpty(xs[..|xs| - 1])
    else xs
  }

  /** Java's `s.split(c)`: the whole string when `c` does not occur, otherwise
      the pieces between occurrences with the trailing empty ones removed. */
  function JavaSplit(s: string, c: char): seq<string>
  {
    if c !in s then [s] else DropTrailingEmpty(SplitAll(s, c))
  }

  /** A string that does not end with the separator splits into pieces that
      join back to it. */
  lemma JavaSplitJoin(s: string, c: char)
    requires |s| > 0 && s[|s| - 1] != c
    ensures Join(JavaSplit(s, c), [c]) == s
    ensures forall i :: 0 <= i < |JavaSplit(s, c)| ==> c !in JavaSplit(s, c)[i]
  {
    SplitAllJoin(s, c);
    SplitAllLast(s, c);
    if c in s {
      var r := SplitAll(s, c);
      assert DropTrailingEmpty(r) == r;
    }
  }

  /** The first index at or after `from` holding `c`, or -1 (Java's `indexOf`). */
  function IndexOf(s: string, c: char, from: nat): (r: int)
    ensures r == -1 || from <= r < |s|
    ensures r == -1 ==> forall i :: from <= i < |s| ==> s[i] != c
    ensures r != -1 ==> s[r] == c && forall i :: from <= i < r ==> s[i] != c
    decreases |s| - from
  {
    if from >= |s| then -1
    else if s[from] == c then from
    else IndexOf(s, c, from + 1)
  }
}
