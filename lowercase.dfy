/**
 * `String.prototype.toLowerCase`, restricted to ASCII letters: the modal lowers
 * the alias before inserting it (src/components/SuccessModal.tsx).
 */
module Lowercase {
  import opened AliasRules

  predicate IsUpper(c: char) {
    'A' <= c <= 'Z'
  }

  /** One character lowered: `A`..`Z` become `a`..`z`, everything else is kept. */
  function LowerChar(c: char): char {
    if IsUpper(c) then (c as int + 32) as char else c
  }

  /** The string lowered character by character; no character is added or dropped. */
  function ToLower(s: string): (r: string)
    ensures |r| == |s|
    ensures forall i :: 0 <= i < |s| ==> r[i] == LowerChar(s[i])
  {
    if s == [] then [] else [LowerChar(s[0])] + ToLower(s[1..])
  }

  /** A lowered string has no upper-case ASCII letter. */
  lemma ToLowerHasNoUpper(s: string)
    ensures forall i :: 0 <= i < |s| ==> !IsUpper(ToLower(s)[i])
  {
  }

  /** A string with no upper-case letter is its own lower case. */
  lemma ToLowerKeepsLower(s: string)
    requires forall i :: 0 <= i < |s| ==> !IsUpper(s[i])
    ensures ToLower(s) == s
  {
  }

  /** Lowering twice is lowering once. */
  lemma ToLowerIdempotent(s: string)
    ensures ToLower(ToLower(s)) == ToLower(s)
  {
  }

  /** Lowering an accepted alias gives an accepted alias: the inserted alias still passes the page's check. */
  lemma ToLowerKeepsAliasAccepted(alias: string)
    requires ClaimError(alias) == ""
    ensures ClaimError(ToLower(alias)) == ""
  {
  }
}
