/** The TMDB service of apps/movie-app/src/services/tmdb-service.ts: how request URLs are built,
    whether a call goes to TMDB directly or through the application's `/api/movies` proxy, the
    blank-query short-circuit of the search, and how `fetchJson` classifies failures. The network
    call itself is an input: its outcome is given as an `HttpOutcome`. */
module Tmdb {
  import opened Wrappers
  import opened Strings
  import opened UrlEncoding

  /** A movie summary as the TMDB listing and search endpoints return it. */
  datatype Movie = Movie(
    id: int,
    title: string,
    overview: string,
    posterPath: string,
    backdropPath: string,
    voteAverage: real,
    releaseDate: string)

  /** A query parameter value, `string | number`; the numbers the service sends are integers. */
  datatype ParamValue = Text(text: string) | Number(number: int)

  /** `String(v)`. */
  function ParamString(v: ParamValue): string
  {
    match v
    case Text(t) => t
    case Number(n) => IntToString(n)
  }

  /** `Object.entries(params)`: name/value pairs in insertion order (no name here is an
      integer-like string, so insertion order is the enumeration order). */
  type Params = seq<(string, ParamValue)>

  function PairString(p: (string, ParamValue)): string
  {
    FormUrlEncode(p.0) + "=" + FormUrlEncode(ParamString(p.1))
  }

  function PairStrings(params: Params): (pairs: seq<string>)
    ensures |pairs| == |params|
    ensures forall i :: 0 <= i < |params| ==> pairs[i] == PairString(params[i])
  {
    seq(|params|, i requires 0 <= i < |params| => PairString(params[i]))
  }

  /** `new URLSearchParams(entries).toString()`. */
  function QueryString(params: Params): string
  {
    Join(PairStrings(params), '&')
  }

  /** `buildUrl(base, endpoint, params)`. */
  function BuildUrl(base: string, endpoint: string, params: Params): string
  {
    var query := QueryString(params);
    if query != "" then base + "/" + endpoint + "?" + query else base + "/" + endpoint
  }

  lemma {:induction false} JoinNonEmpty(parts: seq<string>, sep: char)
    requires |parts| >= 1 && |parts[0]| >= 1
    ensures |Join(parts, sep)| >= 1
  {
  }

  /** A pair string splits at its one `=` into the encoded name and the encoded value. */
  lemma PairStringShape(p: (string, ParamValue))
    ensures '&' !in PairString(p)
    ensures Split(PairString(p), '=') == [FormUrlEncode(p.0), FormUrlEncode(ParamString(p.1))]
  {
    var k, v := FormUrlEncode(p.0), FormUrlEncode(ParamString(p.1));
    EncodingsAvoidDelimiters(p.0, '&');
    EncodingsAvoidDelimiters(ParamString(p.1), '&');
    EncodingsAvoidDelimiters(p.0, '=');
    EncodingsAvoidDelimiters(ParamString(p.1), '=');
    var pair := PairString(p);
    assert pair == k + ['='] + v;
    forall i | 0 <= i < |pair| ensures pair[i] != '&' {
      if i < |k| {
        assert pair[i] == k[i];
      } else if i > |k| {
        assert pair[i] == v[i - |k| - 1];
      }
    }
    SplitAfterPart(k, '=', v);
    SplitWithoutSeparator(v, '=');
  }

  /** `buildUrl` adds `?` and the query exactly when there are parameters; the query then
      splits at `&` into one `name=value` pair per parameter, in insertion order. */
  lemma BuildUrlShape(base: string, endpoint: string, params: Params)
    ensures params == [] ==> BuildUrl(base, endpoint, params) == base + "/" + endpoint
    ensures params != [] ==>
      && BuildUrl(base, endpoint, params) == base + "/" + endpoint + "?" + QueryString(params)
      && Split(QueryString(params), '&') == PairStrings(params)
  {
    if params != [] {
      var pairs := PairStrings(params);
      forall i | 0 <= i < |pairs| ensures '&' !in pairs[i] {
        PairStringShape(params[i]);
      }
      assert pairs[0] == PairString(params[0]);
      JoinNonEmpty(pairs, '&');
      SplitJoin(pairs, '&');
    }
  }

  const TmdbBaseUrl: string := "https://api.themoviedb.org/3"
  const ProxyBaseUrl: string := "/api/movies"
  const RevalidateSeconds: int := 3600
  const DefaultLocale: string := "en-US"
  const DefaultPage: int := 1

  /** The parts of a `RequestInit` the service reads or sets: headers, Next.js's
      `next.revalidate`, and whether an abort signal is attached. */
  datatype RequestOptions = RequestOptions(headers: map<string, string>, revalidate: Option<int>, signal: bool)

  const NoOptions: RequestOptions := RequestOptions(map[], None, false)

  /** The `fetch` the service issues. */
  datatype FetchCall = FetchCall(url: string, options: RequestOptions)

  /** `TMDB_CONFIG.accessToken` is truthy: set and not empty. */
  predicate HasToken(accessToken: Option<string>)
  {
    accessToken.Some? && accessToken.value != ""
  }

  /** `TmdbService.fetch`: on the server with a token, straight to TMDB with a Bearer header
      (caller headers override) and a one-hour revalidation by default; otherwise through the
      proxy with the caller's options untouched. */
  function ServiceFetch(isServer: bool, accessToken: Option<string>, endpoint: string, params: Params,
                        options: RequestOptions): (call: FetchCall)
    ensures isServer && HasToken(accessToken) ==>
      && call.url == BuildUrl(TmdbBaseUrl, endpoint, params)
      && call.options.signal == options.signal
      && call.options.revalidate == Some(options.revalidate.GetOr(RevalidateSeconds))
      && call.options.headers.Keys == options.headers.Keys + {"accept", "Authorization"}
      && (forall h :: h in options.headers ==> call.options.headers[h] == options.headers[h])
      && ("Authorization" !in options.headers ==> call.options.headers["Authorization"] == "Bearer " + accessToken.value)
      && ("accept" !in options.headers ==> call.options.headers["accept"] == "application/json")
    ensures !(isServer && HasToken(accessToken)) ==>
      call == FetchCall(BuildUrl(ProxyBaseUrl, endpoint, params), options)
  {
    if isServer && HasToken(accessToken) then
      var headers := map["accept" := "application/json", "Authorization" := "Bearer " + accessToken.value] + options.headers;
      FetchCall(BuildUrl(TmdbBaseUrl, endpoint, params),
                RequestOptions(headers, Some(options.revalidate.GetOr(RevalidateSeconds)), options.signal))
    else
      FetchCall(BuildUrl(ProxyBaseUrl, endpoint, params), options)
  }

  /** The access token never leaves the server: a call whose caller sent no Authorization header
      carries one only when it goes to TMDB from the server with a token. */
  lemma BearerOnlyOnServer(isServer: bool, accessToken: Option<string>, endpoint: string, params: Params,
                           options: RequestOptions)
    requires "Authorization" !in options.headers
    ensures "Authorization" in ServiceFetch(isServer, accessToken, endpoint, params, options).options.headers
            <==> isServer && HasToken(accessToken)
  {
  }

  /** `getPopularMovies(locale = 'en-US', page = 1)`; an absent argument is `None`. */
  function PopularMovies(isServer: bool, accessToken: Option<string>, locale: Option<string>, page: Option<int>): (call: FetchCall)
  {
    ServiceFetch(isServer, accessToken, "movie/popular",
                 [("language", Text(locale.GetOr(DefaultLocale))), ("page", Number(page.GetOr(DefaultPage)))],
                 NoOptions)
  }

  /** What `searchMovies` does: answer at once, or issue a request. */
  datatype SearchPlan = Answered(results: seq<Movie>) | Requested(call: FetchCall)

  /** The parameters `searchMovies` sends for a query. */
  function SearchParams(query: string, locale: Option<string>, page: Option<int>): Params
  {
    [("query", Text(Trim(query))), ("language", Text(locale.GetOr(DefaultLocale))), ("page", Number(page.GetOr(DefaultPage)))]
  }

  /** `searchMovies(query, locale = 'en-US', page = 1, signal)`. */
  function SearchMovies(isServer: bool, accessToken: Option<string>, query: string, locale: Option<string>,
                        page: Option<int>, signal: bool): SearchPlan
  {
    if Trim(query) == "" then Answered([])
    else Requested(ServiceFetch(isServer, accessToken, "search/movie", SearchParams(query, locale, page),
                                RequestOptions(map[], None, signal)))
  }

  /** A query that is blank once trimmed is answered with no results and no request; any other
      query is requested, with the trimmed text, the locale (default `en-US`) and the page
      (default 1). */
  lemma SearchShortCircuit(isServer: bool, accessToken: Option<string>, query: string, locale: Option<string>,
                           page: Option<int>, signal: bool)
    ensures SearchMovies(isServer, accessToken, query, locale, page, signal) == Answered([]) <==> AllWhitespace(query)
    ensures !AllWhitespace(query) ==>
      var plan := SearchMovies(isServer, accessToken, query, locale, page, signal);
      && plan.Requested?
      && plan.call.options.signal == signal
      && plan.call.url == BuildUrl(if isServer && HasToken(accessToken) then TmdbBaseUrl else ProxyBaseUrl,
                                   "search/movie", SearchParams(query, locale, page))
      && SearchParams(query, locale, page)[0] == ("query", Text(Trim(query)))
      && Trim(query) != "" && !IsJsWhitespace(Trim(query)[0])
  {
    TrimBlank(query);
    if !AllWhitespace(query) {
      var t := Trim(query);
      TrimIdempotent(query);
      assert TrimStart(t) == t;
    }
  }

  /** `getMovieDetails(movieId, locale = 'en-US')`. */
  function MovieDetails(isServer: bool, accessToken: Option<string>, movieId: int, locale: Option<string>): FetchCall
  {
    ServiceFetch(isServer, accessToken, "movie/" + IntToString(movieId),
                 [("language", Text(locale.GetOr(DefaultLocale))), ("append_to_response", Text("credits,videos,images"))],
                 NoOptions)
  }

  /** A thrown JavaScript value: an `Error` (name and message) or anything else. */
  datatype JsError = ErrorObject(name: string, message: string) | NonErrorValue

  /** What `fetch(url, options)` did: threw, or answered with a status and a body whose JSON
      parse succeeds or is rejected. */
  datatype HttpOutcome<T> =
    | Threw(thrown: JsError)
    | Responded(ok: bool, status: int, statusText: string, body: Result<T, JsError>)

  const AbortErrorName: string := "AbortError"
  const WrapPrefix: string := "Failed to fetch data: "

  predicate IsAbortError(e: JsError)
  {
    e.ErrorObject? && e.name == AbortErrorName
  }

  /** The `catch` block: an AbortError is re-thrown as it is; anything else becomes a new
      `Error` whose message is prefixed with "Failed to fetch data: ". */
  function Caught<T>(e: JsError): Result<T, JsError>
  {
    if IsAbortError(e) then Failure(e)
    else Failure(ErrorObject("Error", WrapPrefix + (if e.ErrorObject? then e.message else "Unknown error")))
  }

  /** `fetchJson(url, options)` given what `fetch` did. A non-ok status throws inside the `try`
      and is caught by it. `return res.json()` is not awaited inside the `try`, so a rejected
      body parse leaves `fetchJson` as it is, unwrapped. */
  function FetchJson<T>(outcome: HttpOutcome<T>): Result<T, JsError>
  {
    match outcome
    case Threw(e) => Caught(e)
    case Responded(ok, status, statusText, body) =>
      if !ok then Caught(ErrorObject("Error", "API Error: " + IntToString(status) + " " + statusText))
      else body
  }

  /** A non-ok status surfaces as "Failed to fetch data: API Error: <status> <statusText>". */
  lemma NonOkStatusWrapped<T>(status: int, statusText: string, body: Result<T, JsError>)
    ensures FetchJson(Responded(false, status, statusText, body))
            == Failure(ErrorObject("Error", WrapPrefix + "API Error: " + IntToString(status) + " " + statusText))
  {
    var inner := "API Error: " + IntToString(status) + " " + statusText;
    assert WrapPrefix + inner == WrapPrefix + "API Error: " + IntToString(status) + " " + statusText;
  }

  /** An AbortError is let through exactly as thrown, and `fetchJson` fails with an AbortError
      only when `fetch` threw that very error or the body parse was rejected with it. */
  lemma AbortErrorNeverWrapped<T>(outcome: HttpOutcome<T>)
    ensures outcome.Threw? && IsAbortError(outcome.thrown) ==> FetchJson(outcome) == Failure(outcome.thrown)
    ensures FetchJson(outcome).Failure? && IsAbortError(FetchJson(outcome).error) ==>
      || (outcome.Threw? && outcome.thrown == FetchJson(outcome).error)
      || (outcome.Responded? && outcome.ok && outcome.body == FetchJson(outcome))
  {
  }

  /** Every failure `fetchJson` produces itself (not an abort, not a rejected body) is an
      `Error` whose message starts with "Failed to fetch data: ". */
  lemma FailuresWrapped<T>(outcome: HttpOutcome<T>)
    requires !(outcome.Threw? && IsAbortError(outcome.thrown))
    requires !(outcome.Responded? && outcome.ok)
    ensures FetchJson(outcome).Failure?
    ensures var e := FetchJson(outcome).error;
      e.ErrorObject? && e.name == "Error" && |e.message| >= |WrapPrefix| && e.message[..|WrapPrefix|] == WrapPrefix
  {
  }
}
