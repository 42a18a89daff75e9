/**
 * The edge gate in front of the company area: a protected path without an
 * Auth.js / NextAuth session cookie is redirected to the login page.
 */
module Middleware {
  import opened Wrappers
  import Text

  const EnterprisePrefix := "/empresas"
  /** The paths under the prefix that stay public. */
  const PublicEnterprise: seq<string> := ["/empresas", "/empresas/registro"]

  predicate IsProtected(pathname: string) {
    Text.StartsWith(pathname, EnterprisePrefix) && pathname !in PublicEnterprise
  }

  /** The cookie names the session pattern recognises (with any suffix after them). */
  const SessionCookieNames: seq<string> := [
    "authjs.session-token",
    "__Secure-authjs.session-token",
    "next-auth.session-token",
    "__Secure-next-auth.session-token"
  ]

  /** One of the session cookie names begins at position `j` of the header. */
  predicate NameAt(header: string, j: nat) {
    j <= |header| && exists k :: 0 <= k < |SessionCookieNames| && Text.StartsWith(header[j..], SessionCookieNames[k])
  }

  lemma NameAtStartsWithNonSpace(header: string, j: nat)
    requires NameAt(header, j)
    ensures j < |header| && !Text.IsJsWhitespace(header[j])
  {
    var k :| 0 <= k < |SessionCookieNames| && Text.StartsWith(header[j..], SessionCookieNames[k]);
    assert header[j..][0] == SessionCookieNames[k][0];
  }

  /** Every character of `header[from..to]` is whitespace. */
  predicate AllSpace(header: string, from: nat, to: nat)
    requires from <= to <= |header|
  {
    forall k :: from <= k < to ==> Text.IsJsWhitespace(header[k])
  }

  /** The greedy `\s*`: the first non-whitespace position at or after `i`. */
  function SkipSpaces(header: string, i: nat): (j: nat)
    requires i <= |header|
    ensures i <= j <= |header| && AllSpace(header, i, j)
    ensures j == |header| || !Text.IsJsWhitespace(header[j])
    decreases |header| - i
  {
    if i < |header| && Text.IsJsWhitespace(header[i]) then SkipSpaces(header, i + 1) else i
  }

  /** The pattern `(?:^|;\s*)(?:names…)` matched with its first character at position `p`. */
  predicate MatchAt(header: string, p: nat)
    requires p <= |header|
  {
    (p == 0 && NameAt(header, 0))
    || (p < |header| && header[p] == ';' && NameAt(header, SkipSpaces(header, p + 1)))
  }

  /** `sessionPattern.test`: try every start position from `p` on, left to right. */
  predicate MatchFrom(header: string, p: nat)
    requires p <= |header|
    decreases |header| - p
  {
    MatchAt(header, p) || (p < |header| && MatchFrom(header, p + 1))
  }

  /**
   * The declarative reading of the pattern: a session cookie name begins at
   * the start of the header, or after a ';' and a (possibly empty) run of
   * whitespace.
   */
  ghost predicate CookieStartsAt(header: string, i: nat) {
    (i == 0 && NameAt(header, 0))
    || (i < |header| && header[i] == ';'
        && exists j :: i < j <= |header| && AllSpace(header, i + 1, j) && NameAt(header, j))
  }

  ghost predicate HasSessionCookie(header: string) {
    exists i :: 0 <= i <= |header| && CookieStartsAt(header, i)
  }

  /** Matching at one position agrees with the declarative reading: `\s*` backtracking never helps. */
  lemma MatchAtIffCookieStart(header: string, p: nat)
    requires p <= |header|
    ensures MatchAt(header, p) <==> CookieStartsAt(header, p)
  {
    if p < |header| && header[p] == ';' {
      var s := SkipSpaces(header, p + 1);
      if NameAt(header, s) {
        assert AllSpace(header, p + 1, s);
      }
      if exists j :: p < j <= |header| && AllSpace(header, p + 1, j) && NameAt(header, j) {
        var j :| p < j <= |header| && AllSpace(header, p + 1, j) && NameAt(header, j);
        NameAtStartsWithNonSpace(header, j);
        assert s == j;
      }
    }
  }

  lemma {:induction false} MatchFromIff(header: string, p: nat)
    requires p <= |header|
    ensures MatchFrom(header, p) <==> exists i :: p <= i <= |header| && CookieStartsAt(header, i)
    decreases |header| - p
  {
    MatchAtIffCookieStart(header, p);
    if p < |header| {
      MatchFromIff(header, p + 1);
      if exists i :: p <= i <= |header| && CookieStartsAt(header, i) {
        var i :| p <= i <= |header| && CookieStartsAt(header, i);
        if i > p {
          assert exists i' :: p + 1 <= i' <= |header| && CookieStartsAt(header, i');
        }
      }
    } else {
      if exists i :: p <= i <= |header| && CookieStartsAt(header, i) {
        var i :| p <= i <= |header| && CookieStartsAt(header, i);
        assert i == p;
      }
    }
  }

  /** The scan finds a match exactly when the header carries a session cookie. */
  lemma SessionTestIff(header: string)
    ensures MatchFrom(header, 0) <==> HasSessionCookie(header)
  {
    MatchFromIff(header, 0);
  }

  datatype Decision = Next | RedirectToLogin(next: string)

  /**
   * The middleware: unprotected paths pass; a protected path passes only
   * with a session cookie in the `cookie` header (absent meaning ""), and is
   * otherwise sent to `/login` with `next` set to the path.
   */
  function Gate(pathname: string, cookieHeader: Option<string>): (d: Decision)
    ensures !IsProtected(pathname) ==> d == Next
    ensures d.RedirectToLogin? <==> IsProtected(pathname) && !HasSessionCookie(cookieHeader.GetOr(""))
    ensures d.RedirectToLogin? ==> d.next == pathname
  {
    var header := cookieHeader.GetOr("");
    SessionTestIff(header);
    if !IsProtected(pathname) then Next
    else if !MatchFrom(header, 0) then RedirectToLogin(pathname)
    else Next
  }

  /** The paths the middleware is configured to run on (`:path*` is zero or more segments). */
  predicate MatcherSelects(pathname: string) {
    pathname == "/empresas/dashboard" || pathname == "/empresas/crear"
    || pathname == "/empresas/sorteos" || Text.StartsWith(pathname, "/empresas/sorteos/")
  }

  /** Every path the middleware runs on is a protected one, so the cookie test is never skipped there. */
  lemma MatchedPathsAreProtected(pathname: string)
    requires MatcherSelects(pathname)
    ensures IsProtected(pathname)
  {
    assert |EnterprisePrefix| == 9;
    if Text.StartsWith(pathname, "/empresas/sorteos/") {
      assert pathname[..9] == "/empresas/sorteos/"[..9];
      assert pathname[10] == 's';
      assert "/empresas/registro"[10] == 'r';
    }
  }
}
