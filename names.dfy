/** The rule an entity name must satisfy when an entity is constructed:
    the regular expression ^[a-zA-Z][a-zA-Z0-9_-]{0,63}$ of
    src/Main.kt:177-182, written out as character classes. */
module Names {
  import opened Wrappers

  /** The longest name the rule admits: one leading letter and 63 more characters. */
  const MaxNameLength: nat := 64

  predicate IsAsciiLetter(c: char) {
    ('a' <= c <= 'z') || ('A' <= c <= 'Z')
  }

  predicate IsAsciiDigit(c: char) {
    '0' <= c <= '9'
  }

  /** The class [a-zA-Z0-9_-]. */
  predicate IsNameChar(c: char) {
    IsAsciiLetter(c) || IsAsciiDigit(c) || c == '_' || c == '-'
  }

  /** The name rule stated declaratively. */
  predicate ValidName(s: string) {
    1 <= |s| <= MaxNameLength
    && IsAsciiLetter(s[0])
    && forall i | 1 <= i < |s| :: IsNameChar(s[i])
  }

  /** A left-to-right matcher for [a-zA-Z0-9_-]{0,budget} that must consume
      all of `s`. */
  function MatchesTail(s: string, budget: nat): bool {
    if s == [] then true
    else budget > 0 && IsNameChar(s[0]) && MatchesTail(s[1..], budget - 1)
  }

  /** A left-to-right matcher for the whole pattern, anchored at both ends. */
  function MatchesNamePattern(s: string): bool {
    |s| > 0 && IsAsciiLetter(s[0]) && MatchesTail(s[1..], MaxNameLength - 1)
  }

  lemma {:induction false} MatchesTailSpec(s: string, budget: nat)
    ensures MatchesTail(s, budget) <==> |s| <= budget && forall i | 0 <= i < |s| :: IsNameChar(s[i])
  {
    if s != [] && budget > 0 {
      MatchesTailSpec(s[1..], budget - 1);
      if IsNameChar(s[0]) && MatchesTail(s[1..], budget - 1) {
        forall i | 0 <= i < |s| ensures IsNameChar(s[i]) {
          if i > 0 { assert s[i] == s[1..][i - 1]; }
        }
      }
      if forall i | 0 <= i < |s| :: IsNameChar(s[i]) {
        assert forall i | 0 <= i < |s[1..]| :: s[1..][i] == s[i + 1];
      }
    }
  }

  /** The matcher accepts exactly the names the rule describes. */
  lemma MatchesNamePatternIsValidName(s: string)
    ensures MatchesNamePattern(s) <==> ValidName(s)
  {
    if |s| > 0 {
      MatchesTailSpec(s[1..], MaxNameLength - 1);
      assert forall i | 1 <= i < |s| :: s[i] == s[1..][i - 1];
    }
  }

  /** validateEntityName: raises IllegalArgumentException (here a failure
      carrying the offending name) unless the whole name matches the pattern. */
  function ValidateEntityName(name: string): (r: Outcome<string>)
    ensures r.Pass? <==> ValidName(name)
    ensures r.Fail? ==> r.error == name
  {
    MatchesNamePatternIsValidName(name);
    if MatchesNamePattern(name) then Pass else Fail(name)
  }

  /** Names used by the tests (src/tests.kt:15-33) and a few that the rule
      rejects: empty, starting with a digit or an underscore. */
  lemma NameRuleExamples()
    ensures ValidName("entity1") && ValidName("plano") && ValidName("a_b-C9")
    ensures !ValidName("invalid-entity-name-!@#")
    ensures !ValidName("") && !ValidName("1abc") && !ValidName("_abc")
  {
    assert "invalid-entity-name-!@#"[20] == '!';
  }
}
