/**
 * The alias rule of the waitlist page (src/App.tsx): an alias is accepted when
 * it is non-empty and matches `^[a-zA-Z0-9._-]+$`. The two checks run in order
 * and the first one that fails chooses the message shown under the field.
 */
module AliasRules {

  const EnterAliasMessage: string := "Please enter an alias"
  const InvalidAliasMessage: string := "Alias can only contain letters, numbers, dots, hyphens, and underscores"

  /** The character class `[a-zA-Z0-9._-]`. */
  predicate IsAliasChar(c: char) {
    ('a' <= c <= 'z') || ('A' <= c <= 'Z') || ('0' <= c <= '9') || c == '.' || c == '_' || c == '-'
  }

  /**
   * `^[a-zA-Z0-9._-]+$` read as a regular expression: one character of the
   * class, followed either by the end of the string or by another match.
   */
  predicate MatchesAliasPattern(s: string) {
    |s| > 0 && IsAliasChar(s[0]) && (|s| == 1 || MatchesAliasPattern(s[1..]))
  }

  /** Every character of `s` belongs to the alias class. */
  ghost predicate AllAliasChars(s: string) {
    forall i :: 0 <= i < |s| ==> IsAliasChar(s[i])
  }

  /** The regular expression accepts exactly the non-empty strings of class characters. */
  lemma {:induction false} AliasPatternCharacterwise(s: string)
    ensures MatchesAliasPattern(s) <==> |s| > 0 && AllAliasChars(s)
  {
    if |s| > 1 {
      AliasPatternCharacterwise(s[1..]);
      assert forall i :: 1 <= i < |s| ==> s[i] == s[1..][i - 1];
    }
  }

  /**
   * The message `handleClaimClick` leaves in `error`; the empty string means the
   * alias was accepted and the modal opens.
   */
  function ClaimError(alias: string): (r: string)
    ensures r == "" <==> |alias| > 0 && AllAliasChars(alias)
    ensures alias == "" ==> r == EnterAliasMessage
    ensures alias != "" && !AllAliasChars(alias) ==> r == InvalidAliasMessage
  {
    AliasPatternCharacterwise(alias);
    if alias == "" then EnterAliasMessage
    else if !MatchesAliasPattern(alias) then InvalidAliasMessage
    else ""
  }

  /** An alias with one character outside the class is refused with the character message. */
  lemma RejectsOutsideChar(alias: string, i: nat)
    requires i < |alias| && !IsAliasChar(alias[i])
    ensures ClaimError(alias) == InvalidAliasMessage
  {
  }

  /** The alias of the worked example is accepted. */
  lemma ExampleAliasAccepted()
    ensures ClaimError("john_doe") == ""
  {
  }
}
