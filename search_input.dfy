/** The navigation bar's search box of apps/movie-app/src/components/SearchInput.tsx. The text
    typed (`query`) is debounced elsewhere; the debounced value is an input here. A mutable ref,
    `lastExecutedQuery` (`null`, `""` or a search term), remembers the last term written to the
    URL so that the effect that mirrors the debounced text into `?q=` acts once per term. The
    browser's history and the router are not modelled: the effect returns the URL action it
    would take. */
module SearchSync {
  import opened Wrappers
  import opened Strings
  import opened UrlEncoding

  /** What the synchronisation effect does to the browser. */
  datatype UrlAction =
    | NoAction
    | ReplaceState(url: string)  // `window.history.replaceState(null, '', url)`
    | Push(url: string)          // `router.push(url)`

  /** `pathname?.endsWith('/movies')`: a missing pathname is not the movies page. */
  predicate IsMoviesPage(pathname: Option<string>)
  {
    pathname.Some? && EndsWith(pathname.value, "/movies")
  }

  /** `/${locale}/movies`. */
  function MoviesUrl(locale: string): string
  {
    "/" + locale + "/movies"
  }

  /** `/${locale}/movies?q=${encodeURIComponent(term)}`. */
  function SearchUrl(locale: string, term: string): string
  {
    MoviesUrl(locale) + "?q=" + EncodeUriComponent(term)
  }

  /** The ref is truthy: set, and not the empty string. */
  predicate Executed(last: Option<string>)
  {
    last.Some? && last.value != ""
  }

  /** The ref after one run of the effect, and what the run did to the URL. */
  datatype SyncResult = SyncResult(lastExecuted: Option<string>, action: UrlAction)

  /** One run of the URL-synchronisation effect (lines 36-68). Whatever it does, the ref then
      holds either its old value or the debounced text, and it only acts on the URL after
      recording the text it acted on. */
  function SyncStep(last: Option<string>, debounced: string, locale: string, pathname: Option<string>): (r: SyncResult)
    ensures r.lastExecuted == last || r.lastExecuted == Some(debounced)
    ensures r.action != NoAction ==> r.lastExecuted == Some(debounced)
    ensures r.action.Push? ==> !IsMoviesPage(pathname)
  {
    if last == Some(debounced) then SyncResult(last, NoAction)
    else if debounced != "" then
      var newUrl := SearchUrl(locale, debounced);
      if IsMoviesPage(pathname) then SyncResult(Some(debounced), ReplaceState(newUrl))
      else SyncResult(Some(debounced), Push(newUrl))
    else if Executed(last) then
      if IsMoviesPage(pathname) then SyncResult(Some(""), ReplaceState(MoviesUrl(locale)))
      else SyncResult(Some(""), NoAction)
    else SyncResult(last, NoAction)
  }

  /** A term equal to the last one executed is skipped: no URL action, the ref is unchanged. */
  lemma SkipExecuted(term: string, locale: string, pathname: Option<string>)
    ensures SyncStep(Some(term), term, locale, pathname) == SyncResult(Some(term), NoAction)
  {
  }

  /** A non-empty debounced term that was not the last one executed is recorded, and written
      to `/{locale}/movies?q=<term>`: in place on a path ending in `/movies`, by navigation
      anywhere else. The encoded term holds no `&`, `#` or `=`, so it is the whole `q` value. */
  lemma SearchTermWritten(last: Option<string>, term: string, locale: string, pathname: Option<string>)
    requires term != "" && last != Some(term)
    ensures SyncStep(last, term, locale, pathname).lastExecuted == Some(term)
    ensures SyncStep(last, term, locale, pathname).action ==
      if IsMoviesPage(pathname) then ReplaceState(SearchUrl(locale, term)) else Push(SearchUrl(locale, term))
    ensures '&' !in EncodeUriComponent(term) && '#' !in EncodeUriComponent(term) && '=' !in EncodeUriComponent(term)
  {
    EncodingsAvoidDelimiters(term, '&');
    EncodingsAvoidDelimiters(term, '#');
    EncodingsAvoidDelimiters(term, '=');
  }

  /** Clearing the box after a search records `""`; on the movies page it also rewrites the URL
      to `/{locale}/movies`, which carries no `q`; elsewhere the URL is left alone. */
  lemma ClearAfterSearch(last: Option<string>, locale: string, pathname: Option<string>)
    requires Executed(last)
    ensures SyncStep(last, "", locale, pathname).lastExecuted == Some("")
    ensures SyncStep(last, "", locale, pathname).action ==
      if IsMoviesPage(pathname) then ReplaceState(MoviesUrl(locale)) else NoAction
    ensures '?' !in MoviesUrl(locale) <== '?' !in locale
  {
  }

  /** An empty box with nothing executed, or only the empty string, leaves the URL alone. */
  lemma EmptyWithoutSearchIsQuiet(last: Option<string>, locale: string, pathname: Option<string>)
    requires !Executed(last)
    ensures SyncStep(last, "", locale, pathname).action == NoAction
    ensures SyncStep(last, "", locale, pathname).lastExecuted == last
  {
  }

  /** Running the effect again with the same debounced text does nothing more, whatever the
      ref held before the first run. */
  lemma SyncIdempotent(last: Option<string>, debounced: string, locale: string, pathname: Option<string>)
    ensures var first := SyncStep(last, debounced, locale, pathname);
      SyncStep(first.lastExecuted, debounced, locale, pathname) == SyncResult(first.lastExecuted, NoAction)
  {
  }

  /** The effect run over a sequence of debounced values, one run per value: the ref it leaves
      and the URL action of the last run only (earlier runs' actions are not collected). */
  function SyncRun(last: Option<string>, debouncedValues: seq<string>, locale: string, pathname: Option<string>): (r: SyncResult)
    decreases |debouncedValues|
  {
    if |debouncedValues| == 0 then SyncResult(last, NoAction)
    else
      var first := SyncStep(last, debouncedValues[0], locale, pathname);
      if |debouncedValues| == 1 then first
      else SyncRun(first.lastExecuted, debouncedValues[1..], locale, pathname)
  }

  /** However often the effect re-runs (a new locale object, a new router) while the debounced
      text stays the same, only the first run can touch the URL. */
  lemma {:induction false} RepeatedRunsQuiet(last: Option<string>, debounced: string, n: nat, locale: string, pathname: Option<string>)
    requires n >= 1
    ensures var first := SyncStep(last, debounced, locale, pathname);
      SyncRun(first.lastExecuted, seq(n, _ => debounced), locale, pathname) == SyncResult(first.lastExecuted, NoAction)
  {
    var first := SyncStep(last, debounced, locale, pathname);
    SyncIdempotent(last, debounced, locale, pathname);
    if n > 1 {
      var runs := seq(n, _ => debounced);
      assert runs[1..] == seq(n - 1, _ => debounced);
      RepeatedRunsQuiet(last, debounced, n - 1, locale, pathname);
    }
  }

  /** `searchParams.get('q') || ''`: a missing or empty parameter reads as `""`. */
  function QueryParam(q: Option<string>): string
  {
    q.GetOr("")
  }

  /** The URL-watch effect (lines 72-77): the ref is seeded from `?q` only while it is still
      `null` and the parameter is not empty; a ref already set is never overwritten. */
  function Seed(last: Option<string>, q: Option<string>): (seeded: Option<string>)
    ensures last.Some? ==> seeded == last
    ensures last.None? ==> (seeded.Some? <==> QueryParam(q) != "")
    ensures seeded.Some? && last.None? ==> seeded.value == QueryParam(q)
  {
    var currentParam := QueryParam(q);
    if currentParam != "" && last.None? then Some(currentParam) else last
  }

  /** On mount the synchronisation effect runs before the URL-watch effect, with the ref still
      `null` and the debounced text equal to the text read from `?q=term`. That first run
      acts on the term itself: it rewrites the URL on a `/movies` path and navigates
      elsewhere, and records the term. The seeding that follows then finds the ref set and
      leaves it. */
  lemma MountOrder(term: string, locale: string, pathname: Option<string>)
    requires term != ""
    ensures var first := SyncStep(None, QueryParam(Some(term)), locale, pathname);
      && first.lastExecuted == Some(term)
      && first.action == (if IsMoviesPage(pathname) then ReplaceState(SearchUrl(locale, term)) else Push(SearchUrl(locale, term)))
      && Seed(first.lastExecuted, Some(term)) == Some(term)
  {
  }

  /** A ref seeded after mount while it is still `null`, which happens when the component
      mounted with no `?q` and a back or forward navigation then brings `?q=term`: once the
      debounced text becomes `term`, the synchronisation effect leaves the URL alone instead
      of writing the same search again. */
  lemma SeededSearchNotRepeated(term: string, locale: string, pathname: Option<string>)
    requires term != ""
    ensures var last := Seed(None, Some(term));
      SyncStep(last, term, locale, pathname) == SyncResult(Some(term), NoAction)
  {
  }

  /** `isPending`: the box shows activity while the typed text has not settled into the
      debounced value, or while a `['movies', 'search']` request is in flight. */
  predicate IsPending(query: string, debounced: string, isFetching: nat)
  {
    query != debounced || isFetching > 0
  }

  /** When the activity indicator stops, the URL has caught up with the box: a run of the
      synchronisation effect on the settled text leaves the ref holding the typed text when it
      is not empty, and holding nothing to clear when it is. */
  lemma SettledMeansSynced(query: string, debounced: string, isFetching: nat, last: Option<string>,
                           locale: string, pathname: Option<string>)
    requires !IsPending(query, debounced, isFetching)
    ensures var r := SyncStep(last, debounced, locale, pathname);
      && (query != "" ==> r.lastExecuted == Some(query))
      && (query == "" ==> !Executed(r.lastExecuted))
  {
  }

  /** The component's state: the input's text and the `lastExecutedQuery` ref. */
  class SearchInput {
    var query: string
    var lastExecutedQuery: Option<string>

    /** `useState(initialQuery)` with `initialQuery = searchParams.get('q') || ''`, and
        `useRef(null)`. */
    constructor (q: Option<string>)
      ensures query == QueryParam(q) && lastExecutedQuery == None
    {
      query := QueryParam(q);
      lastExecutedQuery := None;
    }

    /** The input's `onChange`, and the clear button with `text == ""`. */
    method SetQuery(text: string)
      modifies this`query
      ensures query == text
    {
      query := text;
    }

    /** One run of the URL-synchronisation effect for the current debounced value. */
    method SyncUrl(debouncedQuery: string, locale: string, pathname: Option<string>) returns (action: UrlAction)
      modifies this`lastExecutedQuery
      ensures SyncResult(lastExecutedQuery, action) == SyncStep(old(lastExecutedQuery), debouncedQuery, locale, pathname)
    {
      var isMoviesPage := IsMoviesPage(pathname);
      if lastExecutedQuery == Some(debouncedQuery) {
        return NoAction;
      }
      action := NoAction;
      if debouncedQuery != "" {
        var newUrl := SearchUrl(locale, debouncedQuery);
        if isMoviesPage {
          action := ReplaceState(newUrl);
          lastExecutedQuery := Some(debouncedQuery);
        } else {
          lastExecutedQuery := Some(debouncedQuery);
          action := Push(newUrl);
        }
      } else if Executed(lastExecutedQuery) {
        if isMoviesPage {
          action := ReplaceState(MoviesUrl(locale));
        }
        lastExecutedQuery := Some("");
      }
    }

    /** One run of the URL-watch effect for the current `?q` parameter. */
    method SeedFromUrl(q: Option<string>)
      modifies this`lastExecutedQuery
      ensures lastExecutedQuery == Seed(old(lastExecutedQuery), q)
    {
      var currentParam := QueryParam(q);
      if currentParam != "" && lastExecutedQuery.None? {
        lastExecutedQuery := Some(currentParam);
      }
    }
  }
}
