/**
 * The e-mail rule of the success modal (src/components/SuccessModal.tsx): an
 * address is accepted when it is non-empty and matches
 * `^[^\s@]+@[^\s@]+\.[^\s@]+$`.
 */
module EmailRules {

  const EnterEmailMessage: string := "Please enter your email"
  const InvalidEmailMessage: string := "Please enter a valid email address"

  /**
   * JavaScript's `\s`: tab, line feed, vertical tab, form feed, carriage return,
   * space, no-break space, ogham space mark, the spaces U+2000 to U+200A, line
   * and paragraph separator, narrow no-break space, medium mathematical space,
   * ideographic space and the byte order mark.
   */
  predicate IsWhitespace(c: char) {
    var n := c as int;
    (0x09 <= n <= 0x0D) || n == 0x20 || n == 0xA0 || n == 0x1680 || (0x2000 <= n <= 0x200A)
    || n == 0x2028 || n == 0x2029 || n == 0x202F || n == 0x205F || n == 0x3000 || n == 0xFEFF
  }

  /** The character class `[^\s@]`. */
  predicate IsPartChar(c: char) {
    !IsWhitespace(c) && c != '@'
  }

  /** `s[lo..hi]` matches `[^\s@]+`. */
  predicate IsPart(s: string, lo: int, hi: int)
    requires 0 <= lo <= hi <= |s|
  {
    lo < hi && forall k :: lo <= k < hi ==> IsPartChar(s[k])
  }

  /**
   * The pattern matches `s` with its `@` at index `at` and its literal `.` at
   * index `dot`: `s` is local + "@" + domain + "." + tld, each part `[^\s@]+`.
   */
  predicate SplitsAt(s: string, at: int, dot: int) {
    0 < at && at + 1 < dot && dot + 1 < |s| && s[at] == '@' && s[dot] == '.'
    && IsPart(s, 0, at) && IsPart(s, at + 1, dot) && IsPart(s, dot + 1, |s|)
  }

  /** `^[^\s@]+@[^\s@]+\.[^\s@]+$` accepts `s`: some split into the three parts exists. */
  predicate MatchesEmailPattern(s: string) {
    exists at, dot | 0 <= at < |s| && 0 <= dot < |s| :: SplitsAt(s, at, dot)
  }

  /** The number of occurrences of `c` in `s`. */
  function CountChar(s: string, c: char): nat {
    if s == [] then 0 else (if s[0] == c then 1 else 0) + CountChar(s[1..], c)
  }

  lemma {:induction false} CountCharZero(s: string, c: char)
    ensures CountChar(s, c) == 0 <==> forall k :: 0 <= k < |s| ==> s[k] != c
  {
    if s != [] {
      CountCharZero(s[1..], c);
      assert forall k :: 1 <= k < |s| ==> s[k] == s[1..][k - 1];
    }
  }

  /** Given one occurrence of `c` at `p`, the count is one exactly when no other index holds `c`. */
  lemma {:induction false} CountCharOnly(s: string, c: char, p: int)
    requires 0 <= p < |s| && s[p] == c
    ensures CountChar(s, c) == 1 <==> forall k :: 0 <= k < |s| && k != p ==> s[k] != c
  {
    assert forall k :: 1 <= k < |s| ==> s[k] == s[1..][k - 1];
    if p == 0 {
      CountCharZero(s[1..], c);
    } else {
      CountCharOnly(s[1..], c, p - 1);
      if s[0] == c {
        CountCharZero(s[1..], c);
      }
    }
  }

  /**
   * What the pattern promises of an accepted address, as plain features:
   * exactly one `@`, no whitespace, something before the `@`, and a `.` after
   * the `@` that is neither the first character after it nor the last one.
   */
  ghost predicate HasEmailFeatures(s: string) {
    CountChar(s, '@') == 1
    && (forall k :: 0 <= k < |s| ==> !IsWhitespace(s[k]))
    && exists at, dot :: 0 < at && at + 1 < dot < |s| - 1 && s[at] == '@' && s[dot] == '.'
  }

  /** The pattern accepts exactly the strings with those features. */
  lemma EmailPatternIff(s: string)
    ensures MatchesEmailPattern(s) <==> HasEmailFeatures(s)
  {
    if MatchesEmailPattern(s) {
      var at, dot :| 0 <= at < |s| && 0 <= dot < |s| && SplitsAt(s, at, dot);
      forall k | 0 <= k < |s| && k != at
        ensures s[k] != '@' && !IsWhitespace(s[k])
      {
        if k < at {
          assert IsPartChar(s[k]);
        } else if k < dot {
          assert IsPartChar(s[k]);
        } else if k > dot {
          assert IsPartChar(s[k]);
        }
      }
      CountCharOnly(s, '@', at);
    }
    if HasEmailFeatures(s) {
      var at, dot :| 0 < at && at + 1 < dot < |s| - 1 && s[at] == '@' && s[dot] == '.';
      CountCharOnly(s, '@', at);
      assert SplitsAt(s, at, dot);
    }
  }

  /**
   * The message the e-mail checks of `handleSubmit` leave in `error`; the empty
   * string means the address passed both and the insert is issued.
   */
  function EmailError(email: string): (r: string)
    ensures r == "" <==> HasEmailFeatures(email)
    ensures email == "" ==> r == EnterEmailMessage
    ensures email != "" && !HasEmailFeatures(email) ==> r == InvalidEmailMessage
  {
    EmailPatternIff(email);
    if email == "" then EnterEmailMessage
    else if !MatchesEmailPattern(email) then InvalidEmailMessage
    else ""
  }

  /** The address of the worked example is accepted. */
  lemma ExampleEmailAccepted()
    ensures EmailError("john@example.com") == ""
  {
    var s := "john@example.com";
    assert forall k :: 0 <= k < |s| && k != 4 ==> IsPartChar(s[k]);
    assert SplitsAt(s, 4, 12);
    assert MatchesEmailPattern(s);
  }

  /** An address without a `.` after the `@` is refused. */
  lemma MissingDotRejected()
    ensures EmailError("john@example") == InvalidEmailMessage
  {
    var s := "john@example";
    assert forall k :: 0 <= k < |s| ==> s[k] != '.';
  }
}
