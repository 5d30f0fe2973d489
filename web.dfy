/**
 * The web layer's language selection: LanguageMiddleware
 * (Calorizer.Web/Middleware/LanguageMiddleware.cs), which settles the session language before
 * every request, and HomeController.SetLanguage (Calorizer.Web/Controllers/HomeController.cs),
 * which lets the user switch it.
 */
module Web {
  import opened Wrappers
  import opened Dates
  import opened Http

  /** The two languages the site offers. */
  predicate Supported(language: string)
  {
    language == "en" || language == "ar"
  }

  /** `s.StartsWith(prefix)`, compared character by character. */
  predicate StartsWith(s: string, prefix: string)
  {
    |prefix| <= |s| && s[..|prefix|] == prefix
  }

  /**
   * The language the middleware stores in the session, or None when it leaves the session
   * alone: a non-empty session language is kept; otherwise the query's `lang`, then the
   * `Language` cookie, are taken when they name a supported language; otherwise "ar" when
   * the Accept-Language header starts with "ar", and "en" when it does not.
   */
  function ResolveLanguage(sessionLanguage: Option<string>, query: map<string, string>,
                           cookies: map<string, string>, headers: map<string, string>): (r: Option<string>)
    ensures !IsNullOrEmpty(sessionLanguage) ==> r == None
    ensures IsNullOrEmpty(sessionLanguage) ==> r.Some? && Supported(r.value)
    ensures IsNullOrEmpty(sessionLanguage) && Supported(ValueOrEmpty(query, "lang")) ==>
      r == Some(ValueOrEmpty(query, "lang"))
    ensures (IsNullOrEmpty(sessionLanguage) && !Supported(ValueOrEmpty(query, "lang")) &&
             LanguageKey in cookies && Supported(cookies[LanguageKey])) ==> r == Some(cookies[LanguageKey])
    ensures (IsNullOrEmpty(sessionLanguage) && !Supported(ValueOrEmpty(query, "lang")) &&
             !(LanguageKey in cookies && Supported(cookies[LanguageKey]))) ==>
      r == Some(if StartsWith(ValueOrEmpty(headers, "Accept-Language"), "ar") then "ar" else "en")
  {
    if !IsNullOrEmpty(sessionLanguage) then None
    else
      var queryLanguage := ValueOrEmpty(query, "lang");
      if queryLanguage != "" && Supported(queryLanguage) then Some(queryLanguage)
      else
        var cookieLanguage := Lookup(cookies, LanguageKey);
        if !IsNullOrEmpty(cookieLanguage) && Supported(cookieLanguage.value) then Some(cookieLanguage.value)
        else
          var acceptLanguage := ValueOrEmpty(headers, "Accept-Language");
          Some(if StartsWith(acceptLanguage, "ar") then "ar" else "en")
  }

  /** The session after the middleware: the resolved language stored under "Language", if any. */
  function SessionAfter(session: map<string, string>, query: map<string, string>,
                        cookies: map<string, string>, headers: map<string, string>): (s: map<string, string>)
    ensures s.Keys == session.Keys + {LanguageKey}
    ensures forall k | k in session && k != LanguageKey :: s[k] == session[k]
    ensures s[LanguageKey] != ""
  {
    match ResolveLanguage(Lookup(session, LanguageKey), query, cookies, headers)
    case None => session
    case Some(language) => session[LanguageKey := language]
  }

  /**
   * After the middleware the session always holds a non-empty language, which is a supported
   * one unless the session already held another non-empty value, which is kept.
   */
  lemma MiddlewareSettlesLanguage(session: map<string, string>, query: map<string, string>,
                                                     cookies: map<string, string>, headers: map<string, string>)
    ensures var s := SessionAfter(session, query, cookies, headers);
      && (LanguageKey in session && session[LanguageKey] != "" ==> s[LanguageKey] == session[LanguageKey])
      && (LanguageKey !in session || session[LanguageKey] == "" ==> Supported(s[LanguageKey]))
  {
    var r := ResolveLanguage(Lookup(session, LanguageKey), query, cookies, headers);
    if LanguageKey in session && session[LanguageKey] != "" {
      assert r == None;
    } else {
      assert r.Some? && Supported(r.value);
    }
  }

  /**
   * The middleware is idempotent: once it has run, running it again on the same request
   * changes nothing, since the session then holds a non-empty language.
   */
  lemma MiddlewareIsIdempotent(session: map<string, string>, query: map<string, string>,
                               cookies: map<string, string>, headers: map<string, string>)
    ensures var s := SessionAfter(session, query, cookies, headers);
      SessionAfter(s, query, cookies, headers) == s
  {
    var s := SessionAfter(session, query, cookies, headers);
    assert Lookup(s, LanguageKey) == Some(s[LanguageKey]);
  }

  class LanguageMiddleware {
    /** The contexts handed to `_next`, in order. */
    var forwarded: seq<HttpContext>

    constructor ()
      ensures forwarded == []
    {
      forwarded := [];
    }

    /** `InvokeAsync(context)`: settles the session language, then calls the next component once. */
    method InvokeAsync(context: HttpContext)
      modifies this, context
      ensures context.session == SessionAfter(old(context.session), context.query, context.requestCookies, context.headers)
      ensures context.responseCookies == old(context.responseCookies)
      ensures forwarded == old(forwarded) + [context]
    {
      var sessionLanguage := context.SessionString(LanguageKey);
      if IsNullOrEmpty(sessionLanguage) {
        var queryLanguage := ValueOrEmpty(context.query, "lang");
        if queryLanguage != "" && (queryLanguage == "en" || queryLanguage == "ar") {
          context.session := context.session[LanguageKey := queryLanguage];
        } else {
          var cookieLanguage := Lookup(context.requestCookies, LanguageKey);
          if !IsNullOrEmpty(cookieLanguage) && (cookieLanguage.value == "en" || cookieLanguage.value == "ar") {
            context.session := context.session[LanguageKey := cookieLanguage.value];
          } else {
            var acceptLanguage := ValueOrEmpty(context.headers, "Accept-Language");
            var language := if StartsWith(acceptLanguage, "ar") then "ar" else "en";
            context.session := context.session[LanguageKey := language];
          }
        }
      }
      forwarded := forwarded + [context];
    }
  }

  /** The cookie SetLanguage appends: the language, expiring a year after `utcNow`. */
  function LanguageCookie(language: string, utcNow: DateTime): (c: Cookie)
    ensures c.value == language
    ensures c.expires.year == utcNow.year + 1 && c.expires.month == utcNow.month && c.expires.tick == utcNow.tick
    ensures Valid(utcNow) ==>
      (c.expires.day == utcNow.day || (utcNow.month == 2 && utcNow.day == 29 && c.expires.day == 28))
    ensures Valid(utcNow) && utcNow.year < 9999 ==> Valid(c.expires)
  {
    Cookie(language, AddYears(utcNow, 1))
  }

  class HomeController {
    constructor ()
    {
    }

    /**
     * `SetLanguage(language, returnUrl = "/")`: a supported language is stored in the session
     * and in a year-long cookie; any other value changes nothing. The result is the redirect
     * target; an omitted `returnUrl` is None.
     */
    method SetLanguage(context: HttpContext, language: string, returnUrl: Option<string>, utcNow: DateTime)
      returns (redirect: string)
      modifies context
      ensures Supported(language) ==> context.session == old(context.session)[LanguageKey := language]
      ensures Supported(language) ==> context.responseCookies == old(context.responseCookies)[LanguageKey := LanguageCookie(language, utcNow)]
      ensures !Supported(language) ==> context.session == old(context.session)
      ensures !Supported(language) ==> context.responseCookies == old(context.responseCookies)
      ensures redirect == returnUrl.GetOr("/")
    {
      if language == "ar" || language == "en" {
        context.session := context.session[LanguageKey := language];
        context.responseCookies := context.responseCookies[LanguageKey := LanguageCookie(language, utcNow)];
      }
      redirect := returnUrl.GetOr("/");
    }
  }

  /**
   * The choice SetLanguage stores survives the next request: its session value is kept by the
   * middleware, and on a fresh session its cookie is picked up when no query overrides it.
   */
  lemma ChosenLanguageIsRemembered(session: map<string, string>, query: map<string, string>,
                                   cookies: map<string, string>, headers: map<string, string>, language: string)
    requires Supported(language)
    ensures SessionAfter(session[LanguageKey := language], query, cookies, headers)[LanguageKey] == language
    ensures !Supported(ValueOrEmpty(query, "lang")) && LanguageKey !in session ==>
      SessionAfter(session, query, cookies[LanguageKey := language], headers)[LanguageKey] == language
  {
    assert Lookup(session[LanguageKey := language], LanguageKey) == Some(language);
    if !Supported(ValueOrEmpty(query, "lang")) && LanguageKey !in session {
      assert Lookup(session, LanguageKey) == None;
    }
  }
}
