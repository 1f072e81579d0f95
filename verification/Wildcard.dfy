/** The modprobe alias matcher: a backtracking glob, against what a glob means. */
module Wildcards {

  /** The stretch of input a pattern character may stand for. */
  predicate Fits(c: char, part: string) {
    if c == '*' then true
    else if c == '?' then |part| == 1
    else part == [c]
  }

  function Joined(parts: seq<string>): string {
    if parts == [] then "" else parts[0] + Joined(parts[1..])
  }

  /** `parts` assigns to each pattern character a stretch it fits, and they spell the input. */
  ghost predicate Spells(pattern: string, parts: seq<string>, input: string) {
    && |parts| == |pattern|
    && (forall i | 0 <= i < |pattern| :: Fits(pattern[i], parts[i]))
    && Joined(parts) == input
  }

  ghost predicate Matches(pattern: string, input: string) {
    exists parts :: Spells(pattern, parts, input)
  }

  /** The rest of the pattern matches what is left after a stretch for its first character. */
  ghost predicate MatchesAfter(pattern: string, input: string, k: nat)
    requires pattern != "" && k <= |input|
  {
    Fits(pattern[0], input[..k]) && Matches(pattern[1..], input[k..])
  }

  lemma PrependPart(pattern: string, input: string, k: nat)
    requires pattern != "" && k <= |input| && MatchesAfter(pattern, input, k)
    ensures Matches(pattern, input)
  {
    var rest :| Spells(pattern[1..], rest, input[k..]);
    var parts := [input[..k]] + rest;
    assert parts[1..] == rest;
    forall i | 0 <= i < |pattern|
      ensures Fits(pattern[i], parts[i])
    {
      if i > 0 {
        assert pattern[i] == pattern[1..][i - 1] && parts[i] == rest[i - 1];
      }
    }
    assert Spells(pattern, parts, input);
  }

  lemma FirstPart(pattern: string, input: string) returns (k: nat)
    requires pattern != "" && Matches(pattern, input)
    ensures k <= |input| && MatchesAfter(pattern, input, k)
  {
    var parts :| Spells(pattern, parts, input);
    k := |parts[0]|;
    assert input[..k] == parts[0] && input[k..] == Joined(parts[1..]);
    assert Spells(pattern[1..], parts[1..], input[k..]);
  }

  lemma EmptyPattern(input: string)
    ensures Matches("", input) <==> input == ""
  {
    assert Spells("", [], "");
  }

  lemma LoneStar(input: string)
    ensures Matches("*", input)
  {
    assert Joined([input]) == input;
    assert Spells("*", [input], input);
  }

  /** A character other than the star stands for exactly one character. */
  lemma OneCharacter(pattern: string, input: string)
    requires pattern != "" && pattern[0] != '*'
    ensures Matches(pattern, input) <==>
            input != "" && (pattern[0] == '?' || pattern[0] == input[0]) && Matches(pattern[1..], input[1..])
  {
    if Matches(pattern, input) {
      var k := FirstPart(pattern, input);
      assert k == 1 && input[..1] == [input[0]];
    }
    if input != "" && (pattern[0] == '?' || pattern[0] == input[0]) && Matches(pattern[1..], input[1..]) {
      assert input[..1] == [input[0]];
      PrependPart(pattern, input, 1);
    }
  }

  /** Terminates, and accepts exactly the inputs the pattern can spell. */
  method WildcardMatch(pattern: string, input: string) returns (matched: bool)
    ensures matched <==> Matches(pattern, input)
    decreases |pattern|
  {
    if pattern == "" {
      EmptyPattern(input);
      return input == "";
    }
    if pattern[0] == '*' {
      if |pattern| == 1 {
        LoneStar(input);
        assert pattern == "*";
        return true;
      }
      for i := 0 to |input| + 1
        invariant forall k | 0 <= k < i :: !MatchesAfter(pattern, input, k)
      {
        var rest := WildcardMatch(pattern[1..], input[i..]);
        if rest {
          PrependPart(pattern, input, i);
          return true;
        }
      }
      if Matches(pattern, input) {
        var k := FirstPart(pattern, input);
        assert false;
      }
      return false;
    }
    OneCharacter(pattern, input);
    if input == "" {
      return false;
    }
    if pattern[0] == '?' || pattern[0] == input[0] {
      matched := WildcardMatch(pattern[1..], input[1..]);
      return;
    }
    return false;
  }

  datatype Alias = Alias(pattern: string, moduleName: string)

  /** The module of the first alias whose pattern matches, else the name itself. */
  method ResolveAlias(aliases: seq<Alias>, name: string) returns (resolved: string)
    ensures (exists k | 0 <= k < |aliases| ::
               && Matches(aliases[k].pattern, name) && resolved == aliases[k].moduleName
               && forall j | 0 <= j < k :: !Matches(aliases[j].pattern, name))
         || ((forall j | 0 <= j < |aliases| :: !Matches(aliases[j].pattern, name)) && resolved == name)
  {
    for i := 0 to |aliases|
      invariant forall j | 0 <= j < i :: !Matches(aliases[j].pattern, name)
    {
      var matched := WildcardMatch(aliases[i].pattern, name);
      if matched {
        return aliases[i].moduleName;
      }
    }
    resolved := name;
  }
}
