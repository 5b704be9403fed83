/** The double-submit CSRF guard `verifyCsrfToken` (backend/Api.js). */
module Csrf {
  import opened Values

  /** The verdict of a gate: let the request through, or answer it with `status` and `body`. */
  datatype Verdict = Allow | Reject(status: nat, body: Body)

  /** Methods the guard never inspects. */
  predicate IsSafeMethod(verb: string) {
    verb in ["GET", "HEAD", "OPTIONS"]
  }

  /** The double-submit condition: the cookie and the header carry one and the same
      non-empty value. */
  predicate DoubleSubmitted(cookie: Option<string>, header: Option<string>) {
    cookie.Some? && cookie == header && cookie.value != ""
  }

  /** `verifyCsrfToken`: safe methods pass; any other method passes exactly when the
      `_csrfToken` cookie and `x-csrf-token` header are double-submitted, and is otherwise
      refused with 403 and one of two messages, "missing" taking precedence over "mismatch". */
  function VerifyCsrfToken(verb: string, cookie: Option<string>, header: Option<string>): (v: Verdict)
    ensures IsSafeMethod(verb) ==> v == Allow
    ensures !IsSafeMethod(verb) ==> (v == Allow <==> DoubleSubmitted(cookie, header))
    ensures v.Reject? ==> v.status == 403
    ensures v == Reject(403, Message(CsrfMissingText)) <==>
              !IsSafeMethod(verb) && (!Present(cookie) || !Present(header))
    ensures v == Reject(403, Message(CsrfMismatchText)) <==>
              !IsSafeMethod(verb) && Present(cookie) && Present(header) && cookie != header
  {
    if IsSafeMethod(verb) then Allow
    else if !Present(cookie) || !Present(header) then Reject(403, Message(CsrfMissingText))
    else if cookie.value != header.value then Reject(403, Message(CsrfMismatchText))
    else Allow
  }

  /** Whatever the cookie holds, at most one header value gets a mutating request through,
      and that value is the cookie's own. */
  lemma OnlyTheCookieValuePasses(verb: string, cookie: Option<string>, h1: Option<string>, h2: Option<string>)
    requires VerifyCsrfToken(verb, cookie, h1) == Allow && VerifyCsrfToken(verb, cookie, h2) == Allow
    requires !IsSafeMethod(verb)
    ensures h1 == h2 == cookie && Present(cookie)
  {
  }

  /** For a safe method the verdict does not depend on the cookie or the header at all. */
  lemma SafeMethodIgnoresTokens(verb: string, c1: Option<string>, h1: Option<string>,
                                c2: Option<string>, h2: Option<string>)
    requires IsSafeMethod(verb)
    ensures VerifyCsrfToken(verb, c1, h1) == VerifyCsrfToken(verb, c2, h2) == Allow
  {
  }
}
