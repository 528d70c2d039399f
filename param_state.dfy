/**
 * Saving and restoring the query string of a list view in a cookie
 * (handleListParams): a visit with a query string saves it; a later visit
 * to the bare list root is redirected to the saved query; a visit to a
 * sub-route without a query string gets the saved parameters without a
 * redirect.
 *
 * URLSearchParams parsing is not modelled: a result carries the query
 * string whose parameters the source returns.
 */
module ParamState {
  import opened Wrappers

  /** The parts of a URL the handler reads. `search` is "" or starts with '?'. */
  datatype Url = Url(pathname: string, search: string)

  /** The outcome: the parameters of a query string, or the redirect the source throws. */
  datatype ListParams = Params(query: string) | Redirect(status: int, location: string)

  datatype CookieOptions = CookieOptions(path: string, maxAge: int, httpOnly: bool, secure: bool)

  datatype Cookie = Cookie(value: string, options: CookieOptions)

  /** The options the list cookie is written with: site-wide, one year, readable by scripts, not secure-only. */
  const ListCookieOptions: CookieOptions := CookieOptions("/", 60 * 60 * 24 * 365, false, false)

  /** The cookie store of one request, updated in place by `set`. */
  class CookieJar {
    var values: map<string, Cookie>

    constructor (initial: map<string, Cookie>)
      ensures values == initial
    {
      values := initial;
    }

    /** cookies.get: the value of a cookie, if there is one. */
    function Get(name: string): Option<string>
      reads this
    {
      SavedSearch(values, name)
    }

    /** cookies.set: writes one cookie and leaves the others alone. */
    method Set(name: string, value: string, options: CookieOptions)
      modifies this
      ensures values == old(values)[name := Cookie(value, options)]
    {
      values := values[name := Cookie(value, options)];
    }
  }

  /** The saved query string in a cookie store, if there is one. */
  function SavedSearch(jar: map<string, Cookie>, name: string): Option<string>
  {
    if name in jar then Some(jar[name].value) else None
  }

  /** The list root itself, with or without a trailing slash. */
  predicate IsAtBasePath(url: Url, basePath: string) {
    url.pathname == basePath || url.pathname == basePath + "/"
  }

  /** The outcome of one visit, given the cookie store before it. */
  function Outcome(url: Url, basePath: string, jar: map<string, Cookie>, cookieName: string): ListParams
  {
    if url.search != "" then Params(url.search)
    else
      var saved := SavedSearch(jar, cookieName);
      if saved.Some? && saved.value != "" then
        if IsAtBasePath(url, basePath) then Redirect(303, basePath + saved.value)
        else Params(saved.value)
      else Params("")
  }

  /** The cookie store after one visit. */
  function NextJar(url: Url, jar: map<string, Cookie>, cookieName: string): map<string, Cookie>
  {
    if url.search != "" then jar[cookieName := Cookie(url.search, ListCookieOptions)] else jar
  }

  /** handleListParams. */
  method HandleListParams(url: Url, cookies: CookieJar, basePath: string, cookieName: string)
    returns (r: ListParams)
    modifies cookies
    ensures r == Outcome(url, basePath, old(cookies.values), cookieName)
    ensures cookies.values == NextJar(url, old(cookies.values), cookieName)
  {
    var currentSearch := url.search;
    var isAtBasePath := url.pathname == basePath || url.pathname == basePath + "/";
    if currentSearch != "" {
      cookies.Set(cookieName, currentSearch, ListCookieOptions);
      return Params(currentSearch);
    } else {
      var savedSearch := cookies.Get(cookieName);
      if savedSearch.Some? && savedSearch.value != "" {
        if isAtBasePath {
          return Redirect(303, basePath + savedSearch.value);
        } else {
          return Params(savedSearch.value);
        }
      }
    }
    return Params("");
  }

  // ---------------------------------------------------------------- properties

  /** A visit with a query string returns its parameters and saves it, whatever was saved before. */
  lemma QuerySaved(url: Url, basePath: string, jar: map<string, Cookie>, cookieName: string)
    requires url.search != ""
    ensures Outcome(url, basePath, jar, cookieName) == Params(url.search)
    ensures SavedSearch(NextJar(url, jar, cookieName), cookieName) == Some(url.search)
    ensures NextJar(url, jar, cookieName)[cookieName].options == ListCookieOptions
  {
  }

  /** A visit without a query string writes nothing. */
  lemma NoQueryNoWrite(url: Url, jar: map<string, Cookie>, cookieName: string)
    requires url.search == ""
    ensures NextJar(url, jar, cookieName) == jar
  {
  }

  /** No visit touches a cookie other than the list's own. */
  lemma OtherCookiesKept(url: Url, jar: map<string, Cookie>, cookieName: string, other: string)
    requires other != cookieName
    ensures other in NextJar(url, jar, cookieName) <==> other in jar
    ensures other in jar ==> NextJar(url, jar, cookieName)[other] == jar[other]
  {
  }

  /** Without a query string and without a saved one, the parameters are empty, wherever the visit is. */
  lemma NothingSaved(url: Url, basePath: string, jar: map<string, Cookie>, cookieName: string)
    requires url.search == "" && (cookieName !in jar || jar[cookieName].value == "")
    ensures Outcome(url, basePath, jar, cookieName) == Params("")
  {
  }

  /**
   * Save, then restore at the root: after a visit anywhere with query `q`,
   * a bare visit to the list root is redirected (303) to the root with `q`.
   */
  lemma SaveThenRedirect(first: Url, second: Url, basePath: string, jar: map<string, Cookie>, cookieName: string)
    requires first.search != "" && second.search == "" && IsAtBasePath(second, basePath)
    ensures Outcome(second, basePath, NextJar(first, jar, cookieName), cookieName) == Redirect(303, basePath + first.search)
  {
  }

  /** Save, then visit a sub-route: the saved parameters come back without a redirect. */
  lemma SaveThenSubRoute(first: Url, second: Url, basePath: string, jar: map<string, Cookie>, cookieName: string)
    requires first.search != "" && second.search == "" && !IsAtBasePath(second, basePath)
    ensures Outcome(second, basePath, NextJar(first, jar, cookieName), cookieName) == Params(first.search)
  {
  }

  /**
   * A redirect points at the saved query, and following it (the root with
   * that query) returns those parameters without a second redirect and
   * keeps the same saved query. The URL `Url(basePath, saved)` is the
   * redirect target split into path and search, which holds when the saved
   * value begins with '?', as every value this handler writes does: it is a
   * non-empty `url.search`.
   */
  lemma RedirectSettles(url: Url, basePath: string, jar: map<string, Cookie>, cookieName: string)
    requires Outcome(url, basePath, jar, cookieName).Redirect?
    ensures SavedSearch(jar, cookieName).Some?
    ensures Outcome(url, basePath, jar, cookieName)
         == Redirect(303, basePath + SavedSearch(jar, cookieName).value)
    ensures var target := Url(basePath, SavedSearch(jar, cookieName).value);
            Outcome(target, basePath, jar, cookieName) == Params(target.search)
            && SavedSearch(NextJar(target, jar, cookieName), cookieName) == SavedSearch(jar, cookieName)
  {
    assert url.search == "";
  }

  /** Repeating a visit gives the same outcome and leaves the store as the first visit left it. */
  lemma VisitIdempotent(url: Url, basePath: string, jar: map<string, Cookie>, cookieName: string)
    ensures Outcome(url, basePath, NextJar(url, jar, cookieName), cookieName) == Outcome(url, basePath, jar, cookieName)
    ensures NextJar(url, NextJar(url, jar, cookieName), cookieName) == NextJar(url, jar, cookieName)
  {
  }
}
