/**
 * The field rules the register and login pages share: the unanchored email
 * pattern `\S+@\S+\.\S+` and the email and password rule chains, whose
 * messages the two pages spell identically.
 */
module FormRules {
  import opened Base
  import opened Js

  predicate NoWhiteSpace(t: string) {
    forall m :: 0 <= m < |t| ==> !IsWhiteSpace(t[m])
  }

  /** `s[i..e]` is `\S+@\S+\.\S+` with the `@` at `p` and the `.` at `q`. */
  predicate PatternMatchAt(s: string, i: int, p: int, q: int, e: int) {
    && 0 <= i < p && p + 1 < q && q + 1 < e <= |s|
    && s[p] == '@' && s[q] == '.'
    && NoWhiteSpace(s[i..p]) && NoWhiteSpace(s[p + 1..q]) && NoWhiteSpace(s[q + 1..e])
  }

  /** `/\S+@\S+\.\S+/.test(s)`: some substring matches the pattern (it is not anchored). */
  predicate EmailPatternMatches(s: string) {
    exists i, p, q, e | 0 <= i < |s| && 0 <= p < |s| && 0 <= q < |s| && 0 <= e <= |s| :: PatternMatchAt(s, i, p, q, e)
  }

  /**
   * A local reading of the same test: an `@` with a non-space before it, then
   * a run of non-spaces ending at a `.` that a non-space follows.
   */
  predicate AtAndDotAt(s: string, p: int, q: int) {
    && 1 <= p && p + 1 < q && q + 1 < |s|
    && s[p] == '@' && s[q] == '.'
    && !IsWhiteSpace(s[p - 1]) && !IsWhiteSpace(s[q + 1])
    && forall m :: p < m < q ==> !IsWhiteSpace(s[m])
  }

  predicate HasAtAndDot(s: string) {
    exists p, q | 0 <= p < |s| && 0 <= q < |s| :: AtAndDotAt(s, p, q)
  }

  /** A slice has no white space exactly when none of the positions it covers holds any. */
  lemma NoWhiteSpaceSlice(s: string, a: int, b: int)
    requires 0 <= a <= b <= |s|
    ensures NoWhiteSpace(s[a..b]) <==> forall m :: a <= m < b ==> !IsWhiteSpace(s[m])
  {
    var t := s[a..b];
    assert forall m :: a <= m < b ==> t[m - a] == s[m];
  }

  /** A match of the pattern somewhere gives the local condition at its `@` and `.`. */
  lemma LocalFromMatch(s: string, i: int, p: int, q: int, e: int)
    requires PatternMatchAt(s, i, p, q, e)
    ensures AtAndDotAt(s, p, q)
  {
    NoWhiteSpaceSlice(s, i, p);
    NoWhiteSpaceSlice(s, p + 1, q);
    NoWhiteSpaceSlice(s, q + 1, e);
  }

  /** The local condition gives a match of the pattern from one character before the `@` to one after the `.`. */
  lemma MatchFromLocal(s: string, p: int, q: int)
    requires AtAndDotAt(s, p, q)
    ensures PatternMatchAt(s, p - 1, p, q, q + 2)
  {
    NoWhiteSpaceSlice(s, p - 1, p);
    NoWhiteSpaceSlice(s, p + 1, q);
    NoWhiteSpaceSlice(s, q + 1, q + 2);
  }

  /** The pattern matches exactly when the local condition holds: one character on each side suffices. */
  lemma EmailPatternIsLocal(s: string)
    ensures EmailPatternMatches(s) <==> HasAtAndDot(s)
  {
    if EmailPatternMatches(s) {
      var i, p, q, e :| 0 <= i < |s| && 0 <= p < |s| && 0 <= q < |s| && 0 <= e <= |s| && PatternMatchAt(s, i, p, q, e);
      LocalFromMatch(s, i, p, q, e);
    }
    if HasAtAndDot(s) {
      var p, q :| 0 <= p < |s| && 0 <= q < |s| && AtAndDotAt(s, p, q);
      MatchFromLocal(s, p, q);
    }
  }

  /** The pattern needs an `@` and a `.`, so an address missing either is refused. */
  lemma PatternNeedsAtAndDot(s: string)
    requires '@' !in s || '.' !in s
    ensures !EmailPatternMatches(s)
  {
    forall i, p, q, e | 0 <= i < |s| && 0 <= p < |s| && 0 <= q < |s| && 0 <= e <= |s|
      ensures !PatternMatchAt(s, i, p, q, e)
    {
      assert s[p] in s && s[q] in s;
    }
  }

  const EmailRequired := "Email is required"
  const EmailInvalid := "Please enter a valid email address"
  const PasswordRequired := "Password is required"
  const PasswordTooShort := "Password must be at least 6 characters"

  /** The email rule chain: empty, then the pattern; only the first failing message is reported. */
  function EmailError(email: string): (r: Option<string>)
    ensures r == Some(EmailRequired) <==> email == ""
    ensures r == Some(EmailInvalid) <==> email != "" && !HasAtAndDot(email)
    ensures r.None? <==> email != "" && HasAtAndDot(email)
  {
    EmailPatternIsLocal(email);
    if email == "" then Some(EmailRequired)
    else if !EmailPatternMatches(email) then Some(EmailInvalid)
    else None
  }

  /** The password rule chain: empty, then fewer than six UTF-16 code units. */
  function PasswordError(password: string): (r: Option<string>)
    ensures r == Some(PasswordRequired) <==> password == ""
    ensures r == Some(PasswordTooShort) <==> password != "" && Utf16Length(password) < 6
    ensures r.None? <==> password != "" && Utf16Length(password) >= 6
  {
    if password == "" then Some(PasswordRequired)
    else if Utf16Length(password) < 6 then Some(PasswordTooShort)
    else None
  }

  /** No character of the message lowercases to `c`. */
  predicate Lacks(message: string, c: char) {
    forall i :: 0 <= i < |message| ==> LowerChar(message[i]) != c
  }

  /** A keyword one of whose characters the message lacks is not included in the lowercased message. */
  lemma KeywordAbsent(message: string, keyword: string, k: int)
    requires 0 <= k < |keyword| && Lacks(message, keyword[k])
    ensures !Includes(ToLower(message), keyword)
  {
    assert keyword[k] !in ToLower(message);
    MissingCharExcludes(ToLower(message), keyword, keyword[k]);
  }

  /** A message whose lowercase form starts with the keyword includes it. */
  lemma KeywordLeads(message: string, keyword: string)
    requires |keyword| <= |message| && ToLower(message)[..|keyword|] == keyword
    ensures Includes(ToLower(message), keyword)
  {
    PrefixIncluded(ToLower(message), keyword);
  }
}
