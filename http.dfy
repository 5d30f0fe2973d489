/**
 * The parts of an ASP.NET Core HttpContext the language selection reads and writes: the
 * session's string values, the request's query, cookies and headers, and the cookies the
 * response appends.
 */
module Http {
  import opened Wrappers
  import opened Dates

  /** The session key and cookie name under which the UI language is kept. */
  const LanguageKey: string := "Language"

  /** A response cookie: its value and its expiry. */
  datatype Cookie = Cookie(value: string, expires: DateTime)

  class HttpContext {
    /** `Session.GetString(k)` is `session[k]`, or null when `k` is not a key. */
    var session: map<string, string>
    /** `Request.Query[k].ToString()`: the values of `k` joined, "" when there are none. */
    const query: map<string, string>
    /** `Request.Cookies[k]`, or null. */
    const requestCookies: map<string, string>
    /** `Request.Headers[k].ToString()`, "" when absent. */
    const headers: map<string, string>
    /** The cookies appended to the response, by name. */
    var responseCookies: map<string, Cookie>

    constructor (session: map<string, string>, query: map<string, string>, requestCookies: map<string, string>, headers: map<string, string>)
      ensures this.session == session && this.query == query
      ensures this.requestCookies == requestCookies && this.headers == headers
      ensures responseCookies == map[]
    {
      this.session := session;
      this.query := query;
      this.requestCookies := requestCookies;
      this.headers := headers;
      responseCookies := map[];
    }

    /** `Session.GetString(key)`. */
    function SessionString(key: string): (v: Option<string>)
      reads this
      ensures v.Some? <==> key in session
      ensures v.Some? ==> v.value == session[key]
    {
      Lookup(session, key)
    }
  }

  /** A string-keyed lookup that yields null for a missing key (`Session.GetString`, `Request.Cookies[k]`). */
  function Lookup(m: map<string, string>, key: string): (v: Option<string>)
    ensures v.Some? <==> key in m
    ensures v.Some? ==> v.value == m[key]
  {
    if key in m then Some(m[key]) else None
  }

  /** `StringValues.ToString()` of a query or header entry: "" when the entry is absent. */
  function ValueOrEmpty(m: map<string, string>, key: string): (v: string)
    ensures key in m ==> v == m[key]
    ensures key !in m ==> v == ""
  {
    Lookup(m, key).GetOr("")
  }
}
