/** Mailbox name patterns of LIST and LSUB: '*' stands for any text, '%' for
    any text without the hierarchy delimiter, every other character for
    itself (section 6.3.8 of RFC 3501). */
module Wildcard {
  import opened Text

  const DELIMITER := '.'

  function Concat(pieces: seq<string>): string {
    if pieces == [] then "" else pieces[0] + Concat(pieces[1..])
  }

  /** What one pattern character may stand for (section 6.3.8 of RFC 3501). */
  predicate StandsFor(c: char, piece: string) {
    if c == '*' then true
    else if c == '%' then DELIMITER !in piece
    else piece == [c]
  }

  ghost predicate Explains(pieces: seq<string>, pat: string, name: string) {
    && |pieces| == |pat| && Concat(pieces) == name
    && forall i :: 0 <= i < |pat| ==> StandsFor(pat[i], pieces[i])
  }

  /** The name can be cut into one piece for each pattern character. */
  ghost predicate Matches(pat: string, name: string) {
    exists pieces :: Explains(pieces, pat, name)
  }

  /** The first character takes the first j characters of the name. */
  ghost predicate SplitsAt(pat: string, name: string, j: nat)
    requires pat != ""
  {
    j <= |name| && StandsFor(pat[0], name[..j]) && Matches(pat[1..], name[j..])
  }

  lemma MatchesEmpty(name: string)
    ensures Matches("", name) <==> name == ""
  {
    if name == "" { assert Explains([], "", name); }
  }

  lemma SplitMatches(pat: string, name: string, j: nat)
    requires pat != "" && SplitsAt(pat, name, j)
    ensures Matches(pat, name)
  {
    var tail :| Explains(tail, pat[1..], name[j..]);
    var pieces := [name[..j]] + tail;
    assert pieces[1..] == tail;
    forall i | 0 <= i < |pat| ensures StandsFor(pat[i], pieces[i]) {
      if i > 0 { assert StandsFor(pat[1..][i - 1], tail[i - 1]); }
    }
    assert Explains(pieces, pat, name);
  }

  lemma MatchSplits(pat: string, name: string)
    requires pat != "" && Matches(pat, name)
    ensures exists j: nat :: SplitsAt(pat, name, j)
  {
    var pieces :| Explains(pieces, pat, name);
    var j := |pieces[0]|;
    assert name[..j] == pieces[0] && name[j..] == Concat(pieces[1..]);
    forall i | 0 <= i < |pat[1..]| ensures StandsFor(pat[1..][i], pieces[1..][i]) {
      assert StandsFor(pat[i + 1], pieces[i + 1]);
    }
    assert Explains(pieces[1..], pat[1..], name[j..]);
    assert SplitsAt(pat, name, j);
  }

  lemma MatchesLiteral(pat: string, name: string)
    requires pat != "" && pat[0] != '*' && pat[0] != '%'
    ensures Matches(pat, name) <==> name != "" && name[0] == pat[0] && Matches(pat[1..], name[1..])
  {
    if Matches(pat, name) {
      MatchSplits(pat, name);
      var j: nat :| SplitsAt(pat, name, j);
      assert name[..j] == [pat[0]];
    } else if name != "" && name[0] == pat[0] && Matches(pat[1..], name[1..]) {
      assert name[..1] == [pat[0]];
      SplitMatches(pat, name, 1);
    }
  }

  lemma StarMatchesAll(name: string)
    ensures Matches("*", name)
  {
    assert Concat([name][1..]) == "";
    assert Explains([name], "*", name);
  }

  /** strings.Contains(s, ".") */
  predicate HasDelimiter(s: string) { DELIMITER in s }

  /** The backtracking matcher agrees with the declarative meaning. */
  method Match(pattern: string, s: string) returns (r: bool)
    ensures r <==> Matches(pattern, s)
    decreases |pattern|
  {
    var name := s;
    var i := 0;
    assert pattern[0..] == pattern;
    while i < |pattern|
      invariant 0 <= i <= |pattern|
      invariant Matches(pattern, s) <==> Matches(pattern[i..], name)
    {
      ghost var pat := pattern[i..];
      assert pat[0] == pattern[i] && pat[1..] == pattern[i + 1..];
      if pattern[i] == '*' {
        if i == |pattern| - 1 {
          assert pat == "*";
          StarMatchesAll(name);
          return true;
        }
        r := MatchStar(pattern, i, name);
        return r;
      } else if pattern[i] == '%' {
        r := MatchPercent(pattern, i, name);
        return r;
      } else {
        MatchesLiteral(pat, name);
        if |name| == 0 || name[0] != pattern[i] { return false; }
        name := name[1..];
      }
      i := i + 1;
    }
    assert pattern[i..] == "";
    MatchesEmpty(name);
    return |name| == 0;
  }

  method MatchStar(pattern: string, i: nat, name: string) returns (r: bool)
    requires i < |pattern| && pattern[i] == '*'
    ensures r <==> Matches(pattern[i..], name)
    decreases |pattern| - i, 0
  {
    ghost var pat := pattern[i..];
    assert pat[0] == '*' && pat[1..] == pattern[i + 1..];
    for j := 0 to |name| + 1
      invariant forall k :: 0 <= k < j ==> !SplitsAt(pat, name, k)
    {
      var found := Match(pattern[i + 1..], name[j..]);
      if found {
        SplitMatches(pat, name, j);
        return true;
      }
    }
    if Matches(pat, name) {
      MatchSplits(pat, name);
      assert false;
    }
    return false;
  }

  method MatchPercent(pattern: string, i: nat, name: string) returns (r: bool)
    requires i < |pattern| && pattern[i] == '%'
    ensures r <==> Matches(pattern[i..], name)
    decreases |pattern| - i, 0
  {
    ghost var pat := pattern[i..];
    assert pat[0] == '%' && pat[1..] == pattern[i + 1..];
    for j := 0 to |name| + 1
      invariant forall k :: 0 <= k < j ==> !SplitsAt(pat, name, k)
    {
      if HasDelimiter(name[..j]) {
        forall k | j <= k <= |name| ensures HasDelimiter(name[..k]) {
          assert name[..j] == name[..k][..j];
        }
        break;
      }
      var found := Match(pattern[i + 1..], name[j..]);
      if found {
        SplitMatches(pat, name, j);
        return true;
      }
    }
    if Matches(pat, name) {
      MatchSplits(pat, name);
      assert false;
    }
    return false;
  }

  /** matchPattern: the wildcard meaning, or equality up to case; the empty
      pattern names only the empty name. */
  method MatchPattern(pattern: string, name: string) returns (r: bool)
    ensures r <==> Matches(pattern, name) || (pattern != "" && Lower(pattern) == Lower(name))
  {
    if pattern == "" {
      MatchesEmpty(name);
      return name == "";
    }
    if Lower(pattern) == Lower(name) { return true; }
    r := Match(pattern, name);
  }
}
