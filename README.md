# tmdb-next movie app: a Dafny model of its rule-based core

The application is a Next.js movie browser backed by TMDB (The Movie Database) and a Supabase
favourites table. Most of it is UI glue. This project models the parts that follow rules that
can be stated and proved. There is one Dafny module per source file:

- `MovieGrid` (`movie_grid.dfy`) models the infinite popular-movies grid. It covers the
  column count taken from CSS tokens, the loop that chunks the flat movie list into rows,
  the next page number and its stop condition, the virtual row count with its sentinel loader
  row, the fetch-trigger condition and what each virtual row renders. A class holds the
  paging state: pages, page parameters, the in-flight flag and the column count.
- `ImageLoader` (`tmdb_loader.dfy`) models the choice of one of TMDB's seven poster sizes
  from a requested width, and the image URL built from it.
- `FavoriteToggle` (`favorite_button.dfy`) models the optimistic favourite toggle. It covers
  the request choice, the snapshot, the optimistic remove or append on the cached list, the
  rollback on error, the refetch mark and the optimistic heart.
- `FavoritesApi` (`favorites_route.dfy`) models `GET`, `POST` and `DELETE /api/favorites` over
  an in-memory `favorites` table. The rows follow `db/schema.ts`.
- `SearchSync` (`search_input.dfy`) models the search box's URL synchronisation through the
  `lastExecutedQuery` ref, the back/forward seeding effect and `isPending`.
- `SignInModal` (`user_menu.dfy`) models the sign-in modal's mode machine (`login`,
  `register`, `magic-link`, `check-email`), its fields, `handleSubmit`, `resetForm`,
  `closeModal` and the mode-switch buttons.
- `Tmdb` (`tmdb_service.dfy`) models `buildUrl`, the choice between TMDB and the `/api/movies`
  proxy, the blank-query short-circuit of `searchMovies` and how `fetchJson` classifies errors.

Helper modules: `Wrappers` (Option and Result), `Seqs` (`filter`, `flat`), `Strings`
(`split`, `join`, `endsWith`, `trim`, integer rendering) and `UrlEncoding`
(`encodeURIComponent` and the form-urlencoded serializer of `URLSearchParams`).

State that the source changes step by step is held in a class:

- the grid's `columns` and infinite-query pages;
- the query cache's favourites lists;
- the favourites table;
- the search box's ref;
- the modal's `useState` fields.

Each method's `ensures` ties the new state to a pure step function of the old state. The
properties are proved as lemmas about those step functions.

The grid pages only the popular listing under `['movies', 'popular', locale]`. It has no
search query, cancellation or generation check. The column count needs no clamp, because
`split(' ')` always yields at least one token. A failed page fetch only clears the in-flight
flag.

## Model

| member | source | states |
|---|---|---|
| `MovieGrid.ColumnCount` | apps/movie-app/src/components/InfiniteMovieGrid.tsx:22-28 | the column count is the number of spaces in `gridTemplateColumns` plus one, hence at least 1 |
| `MovieGrid.ChunkRows` | apps/movie-app/src/components/InfiniteMovieGrid.tsx:60-65 | the `for` loop that pushes `slice(i, i + columns)` builds exactly the rows of the chunking specification |
| `MovieGrid.ChunkFlatten` | apps/movie-app/src/components/InfiniteMovieGrid.tsx:60-65 | concatenating the rows gives back the flat movie list `pages.flat()` |
| `MovieGrid.ChunkCount` | apps/movie-app/src/components/InfiniteMovieGrid.tsx:62-65 | no movies give no rows; otherwise the row count k is the least with k * columns >= n |
| `MovieGrid.ChunkRow` | apps/movie-app/src/components/InfiniteMovieGrid.tsx:62-65 | row i is exactly the slice [i * columns, min((i + 1) * columns, n)) |
| `MovieGrid.ChunkShape` | apps/movie-app/src/components/InfiniteMovieGrid.tsx:62-65 | there are ceil(n / columns) rows, each of exactly `columns` movies except the last, which is non-empty and holds the remainder |
| `MovieGrid.GetNextPageParam` | apps/movie-app/src/components/InfiniteMovieGrid.tsx:50-52 | the next page is `allPages.length + 1` exactly when the last page is non-empty, otherwise there is none |
| `MovieGrid.LoaderRowIsSentinel` | apps/movie-app/src/components/InfiniteMovieGrid.tsx:110 | within the virtual count (rows + 1 while a next page exists, line 68) an index is the loader row iff a next page exists and it is the sentinel index `rows` |
| `MovieGrid.RenderRow` | apps/movie-app/src/components/InfiniteMovieGrid.tsx:109-137 | the loader row shows the spinner iff a page is being fetched; a movie row renders one card per movie of its row, in order, with `priority` only on row 0 |
| `MovieGrid.InfiniteMovieGrid.constructor` | apps/movie-app/src/components/InfiniteMovieGrid.tsx:44-58 | starts with two columns, pages `[initialMovies]` and page params `[1]` |
| `MovieGrid.InfiniteMovieGrid.UpdateColumnsFromCss` | apps/movie-app/src/components/InfiniteMovieGrid.tsx:22-28 | with the grid element mounted, columns become the CSS token count; otherwise they are unchanged |
| `MovieGrid.InfiniteMovieGrid.VirtualRows` | apps/movie-app/src/components/InfiniteMovieGrid.tsx:60-65 | the rows are the chunking of the flattened pages at the current column count |
| `MovieGrid.InfiniteMovieGrid.FetchEffect` | apps/movie-app/src/components/InfiniteMovieGrid.tsx:74-85 | requests a page iff there is a last visible item at or past the last loaded row, a next page and no fetch in flight; the page requested is `pages.length + 1` and the query is then in flight |
| `MovieGrid.InfiniteMovieGrid.EffectRuns` | apps/movie-app/src/components/InfiniteMovieGrid.tsx:74-93 | any number of effect re-runs with no page arriving or failing between them request at most one page, the next page number; none if a fetch was already in flight, and otherwise one exactly when some run meets the trigger; after a request the query is in flight, and with none the flag is unchanged |
| `MovieGrid.InfiniteMovieGrid.PageArrived` | apps/movie-app/src/components/InfiniteMovieGrid.tsx:47-57 | the arrived page is appended with page param `pages.length + 1`, so the params stay 1, 2, 3, ... and the flat list grows by exactly that page |
| `MovieGrid.InfiniteMovieGrid.PageFailed` | apps/movie-app/src/components/InfiniteMovieGrid.tsx:44 | a failed fetch appends nothing and clears the in-flight flag |
| `ImageLoader.SizeFor` | apps/movie-app/src/lib/tmdb-loader.ts:9-16 | `original` iff width > 780; otherwise width <= the chosen `wN`, and no smaller bucket fits |
| `ImageLoader.SizeForIsFirstFit` | apps/movie-app/src/lib/tmdb-loader.ts:11-16 | the chosen size is the first of 92, 154, 185, 342, 500, 780 that is at least the width, and `original` when there is none |
| `ImageLoader.SizeForMonotone` | apps/movie-app/src/lib/tmdb-loader.ts:11-16 | a larger width never selects a smaller size |
| `ImageLoader.TmdbLoader` | apps/movie-app/src/lib/tmdb-loader.ts:18 | the URL is `https://image.tmdb.org/t/p/`, then the size token, then `src` unchanged as the suffix |
| `Tmdb.PairStringShape` | apps/movie-app/src/services/tmdb-service.ts:74-76 | an encoded pair holds no `&` and splits at `=` into the encoded name and value |
| `Tmdb.BuildUrlShape` | apps/movie-app/src/services/tmdb-service.ts:73-78 | no params give `base/endpoint` with no `?`; otherwise `base/endpoint?query`, whose `&`-parts are the encoded pairs in insertion order |
| `Tmdb.ServiceFetch` | apps/movie-app/src/services/tmdb-service.ts:95-112 | on the server with a non-empty token: TMDB base, Bearer and accept headers (caller headers win), revalidate 3600 by default; otherwise the `/api/movies` proxy with the options untouched |
| `Tmdb.BearerOnlyOnServer` | apps/movie-app/src/services/tmdb-service.ts:96-111 | without a caller Authorization header, a call carries one iff it runs on the server with a token |
| `Tmdb.SearchShortCircuit` | apps/movie-app/src/services/tmdb-service.ts:122-131 | a query that is blank once trimmed is answered `[]` with no fetch; any other query is requested with the trimmed text, the locale (default `en-US`), the page (default 1) and the signal |
| `Tmdb.NonOkStatusWrapped` | apps/movie-app/src/services/tmdb-service.ts:82-90 | a non-ok status fails with "Failed to fetch data: API Error: status statusText" |
| `Tmdb.AbortErrorNeverWrapped` | apps/movie-app/src/services/tmdb-service.ts:84-87 | an AbortError thrown by `fetch` is re-thrown unchanged; an AbortError result comes only from that or from the unawaited body parse |
| `Tmdb.FailuresWrapped` | apps/movie-app/src/services/tmdb-service.ts:85-90 | every failure `fetchJson` raises itself is an `Error` whose message starts with "Failed to fetch data: " |
| `FavoriteToggle.MutationRequest` | apps/movie-app/src/components/FavoriteButton.tsx:50-61 | no request without a user; otherwise DELETE of the movie iff `isFavorite`, else POST of movieId, title, posterPath and rating |
| `FavoriteToggle.RemoveMovieSpec` | apps/movie-app/src/components/FavoriteButton.tsx:78-79 | the optimistic remove leaves no entry for the movie and keeps every other entry; a list without it is unchanged |
| `FavoriteToggle.RemoveMovieAppend` | apps/movie-app/src/components/FavoriteButton.tsx:79 | the remove distributes over concatenation, so the kept entries keep their order |
| `FavoriteToggle.OptimisticFlipsMembership` | apps/movie-app/src/components/FavoriteButton.tsx:75-84 | after the optimistic update the movie is in the list iff it was not a favourite; the add appends exactly one `{movieId}` after the unchanged old entries |
| `FavoriteToggle.AfterMutate` | apps/movie-app/src/components/FavoriteButton.tsx:75-84 | the optimistic update changes no other user's list and adds or drops no cache key |
| `FavoriteToggle.MutateNeedsSnapshot` | apps/movie-app/src/components/FavoriteButton.tsx:70-84 | with no cached list the cache is left untouched; with one, the list becomes the optimistic list |
| `FavoriteToggle.RollbackRestoresSnapshot` | apps/movie-app/src/components/FavoriteButton.tsx:87-96 | rollback with the context `onMutate` returned restores the cache exactly, so mutate then rollback is the identity |
| `FavoriteToggle.ClickFlipsHeart` | apps/movie-app/src/components/FavoriteButton.tsx:42-45 | while the click's transition is pending the heart shows `!isFavorite` (line 115); afterwards it shows the prop again |
| `FavoriteToggle.NoUserNoOp` | apps/movie-app/src/components/FavoriteButton.tsx:50-104 | without a user: no request, no snapshot, no cache change and no rollback; the button is not rendered (lines 125-127) |
| `FavoriteToggle.QueryClient.OnMutate` | apps/movie-app/src/components/FavoriteButton.tsx:63-88 | returns the snapshot context and writes the optimistic list only when a list was cached |
| `FavoriteToggle.QueryClient.OnError` | apps/movie-app/src/components/FavoriteButton.tsx:90-98 | with a user and a snapshot, the user's list becomes the snapshot; otherwise nothing changes |
| `FavoriteToggle.QueryClient.OnSettled` | apps/movie-app/src/components/FavoriteButton.tsx:100-104 | with a user, the user's favourites are marked for refetch |
| `FavoriteToggle.QueryClient.Toggle` | apps/movie-app/src/components/FavoriteButton.tsx:108-122 | a click sends the `mutationFn` request; a rejected request leaves the cache as before the click, an accepted one leaves the optimistic list |
| `FavoritesApi.NoUserUnauthorized` | apps/movie-app/src/app/api/favorites/route.ts:12-14 | GET, POST and DELETE all answer 401 without a user and leave the table untouched (also lines 29-31, 70-72) |
| `FavoritesApi.GetReturnsOwnRows` | apps/movie-app/src/app/api/favorites/route.ts:16-21 | GET answers 200 with exactly the rows whose userId is the caller's |
| `FavoritesApi.PostCases` | apps/movie-app/src/app/api/favorites/route.ts:33-62 | a falsy movieId (0 included) or title gives 400 and a duplicate gives 409, both with the table unchanged; otherwise 201 and one appended row with the caller's id and `mediaType` defaulting to `movie` |
| `FavoritesApi.PostKeepsUnique` | apps/movie-app/src/app/api/favorites/route.ts:41-60 | run sequentially, POST keeps at most one row per (user, movieId) |
| `FavoritesApi.PostThenGet` | apps/movie-app/src/app/api/favorites/route.ts:50-62 | after a successful POST, GET lists the new row for that movieId |
| `FavoritesApi.DeleteCases` | apps/movie-app/src/app/api/favorites/route.ts:74-85 | no movieId gives 400 with the table unchanged; otherwise success whether or not a row matched, no (user, movieId) row left and all other rows kept |
| `FavoritesApi.FilterKeepsUnique` | apps/movie-app/src/app/api/favorites/route.ts:81-83 | deleting rows never creates a duplicate (user, movieId) pair |
| `FavoritesApi.DeleteKeepsUnique` | apps/movie-app/src/app/api/favorites/route.ts:81-83 | DELETE keeps at most one row per (user, movieId) |
| `FavoritesApi.FavoritesTable.Get` | apps/movie-app/src/app/api/favorites/route.ts:8-22 | the handler answers as `GetOutcome` and leaves the table unchanged |
| `FavoritesApi.FavoritesTable.Post` | apps/movie-app/src/app/api/favorites/route.ts:25-63 | the handler answers and updates the table as `PostOutcome`, keeping (user, movieId) unique |
| `FavoritesApi.FavoritesTable.Delete` | apps/movie-app/src/app/api/favorites/route.ts:66-86 | the handler answers and updates the table as `DeleteOutcome`, keeping (user, movieId) unique |
| `SearchSync.SyncStep` | apps/movie-app/src/components/SearchInput.tsx:36-68 | the ref ends as it was or as the debounced text; any URL action records the text it acted on; `router.push` only off the movies page |
| `SearchSync.SkipExecuted` | apps/movie-app/src/components/SearchInput.tsx:41-43 | a debounced text equal to `lastExecutedQuery` causes nothing |
| `SearchSync.SearchTermWritten` | apps/movie-app/src/components/SearchInput.tsx:45-59 | a new non-empty text is recorded and written to `/{locale}/movies?q=...` by replaceState on a `/movies` path and by push elsewhere; the encoded term holds no `&`, `#` or `=` |
| `SearchSync.ClearAfterSearch` | apps/movie-app/src/components/SearchInput.tsx:60-67 | clearing after a search records `""` and, on the movies page only, replaces the URL with `/{locale}/movies`, which has no `?` |
| `SearchSync.EmptyWithoutSearchIsQuiet` | apps/movie-app/src/components/SearchInput.tsx:60-67 | an empty text with the ref null or `""` causes no URL action and leaves the ref |
| `SearchSync.SyncIdempotent` | apps/movie-app/src/components/SearchInput.tsx:36-68 | a second run with the same debounced text does nothing |
| `SearchSync.RepeatedRunsQuiet` | apps/movie-app/src/components/SearchInput.tsx:36-68 | any number of re-runs with the same debounced text after the first take no URL action |
| `SearchSync.Seed` | apps/movie-app/src/components/SearchInput.tsx:72-77 | the ref is seeded with `?q` only while it is null and the parameter is non-empty; a set ref is never overwritten |
| `SearchSync.MountOrder` | apps/movie-app/src/components/SearchInput.tsx:20-77 | on mount with `?q=term`, the sync effect runs first with a null ref and acts on the term (replaceState on `/movies`, push elsewhere) and records it; the seeding effect then leaves the ref alone |
| `SearchSync.SeededSearchNotRepeated` | apps/movie-app/src/components/SearchInput.tsx:72-77 | a ref seeded after mount while still null (mounted without `?q`, then back/forward to `?q=term`) makes a later sync of `term` take no URL action |
| `SearchSync.SettledMeansSynced` | apps/movie-app/src/components/SearchInput.tsx:82 | once `isPending` is false, a sync run leaves the ref holding the typed text when it is non-empty, and nothing to clear when it is empty |
| `SearchSync.SearchInput.constructor` | apps/movie-app/src/components/SearchInput.tsx:20-30 | the text starts as `?q` or `""`, the ref as null |
| `SearchSync.SearchInput.SetQuery` | apps/movie-app/src/components/SearchInput.tsx:110-114 | typing or the clear button sets the text |
| `SearchSync.SearchInput.SyncUrl` | apps/movie-app/src/components/SearchInput.tsx:36-68 | the effect updates the ref and acts on the URL as `SyncStep` |
| `SearchSync.SearchInput.SeedFromUrl` | apps/movie-app/src/components/SearchInput.tsx:72-77 | the effect updates the ref as `Seed` |
| `SignInModal.Utf16LengthBounds` | apps/movie-app/src/components/UserMenu.tsx:57 | `password.length` counts between one and two code units per character |
| `SignInModal.Reset` | apps/movie-app/src/components/UserMenu.tsx:27-33 | `resetForm` gives login mode with empty email, password and error, not submitting, the modal as it was |
| `SignInModal.Closed` | apps/movie-app/src/components/UserMenu.tsx:35-38 | `closeModal` gives the initial state: modal closed and the form reset |
| `SignInModal.FinishSubmit` | apps/movie-app/src/components/UserMenu.tsx:51-79 | whatever the answer, submitting is false afterwards |
| `SignInModal.EmptyEmailIgnored` | apps/movie-app/src/components/UserMenu.tsx:42 | submit with an empty email changes nothing and calls nothing |
| `SignInModal.SubmitCallFollowsMode` | apps/movie-app/src/components/UserMenu.tsx:40-69 | magic-link calls `signInWithMagicLink(email)`, register with 6+ code units calls `signUp`, other modes call `signIn`; while awaited, submitting is true and the error is cleared |
| `SignInModal.ShortPasswordRejected` | apps/movie-app/src/components/UserMenu.tsx:56-61 | register with a password under 6 code units sets "Password must be at least 6 characters", calls nothing, stays in register, not submitting |
| `SignInModal.AcceptedLinkOrSignUpChecksEmail` | apps/movie-app/src/components/UserMenu.tsx:49-67 | an accepted magic link or sign-up moves to check-email with submitting false, the modal and email kept |
| `SignInModal.AcceptedSignInCloses` | apps/movie-app/src/components/UserMenu.tsx:68-73 | an accepted sign-in closes the modal and resets the form |
| `SignInModal.RejectedCallShowsError` | apps/movie-app/src/components/UserMenu.tsx:76-79 | a rejected call keeps the mode and fields, shows the returned message and ends submitting |
| `SignInModal.SubmitAlwaysSettles` | apps/movie-app/src/components/UserMenu.tsx:44-79 | every submit past the empty-email check ends with submitting false |
| `SignInModal.LateAnswerAfterClose` | apps/movie-app/src/components/UserMenu.tsx:35-55 | an accepted magic link answered after the modal was closed leaves a closed, reset form in check-email mode |
| `SignInModal.Press` | apps/movie-app/src/components/UserMenu.tsx:170-284 | a mode switch never opens or closes the modal |
| `SignInModal.ModeTransitions` | apps/movie-app/src/components/UserMenu.tsx:236-287 | login goes to magic-link or register, register and magic-link go back to login, check-email "back" resets to login; switches to login or register clear the error, the one to magic-link keeps it |
| `SignInModal.CheckEmailOnlyAfterAcceptedCall` | apps/movie-app/src/components/UserMenu.tsx:49-74 | check-email is reached only by an accepted magic-link or sign-up call, never by a button |
| `SignInModal.UserMenu.constructor` | apps/movie-app/src/components/UserMenu.tsx:20-25 | the modal starts closed, in login mode, with empty fields |
| `SignInModal.UserMenu.OpenModal` | apps/movie-app/src/components/UserMenu.tsx:134-139 | the Sign In button opens the modal and changes nothing else |
| `SignInModal.UserMenu.SetEmail` | apps/movie-app/src/components/UserMenu.tsx:194 | the email input sets the email only |
| `SignInModal.UserMenu.SetPassword` | apps/movie-app/src/components/UserMenu.tsx:209 | the password input sets the password only |
| `SignInModal.UserMenu.ResetForm` | apps/movie-app/src/components/UserMenu.tsx:27-33 | the fields become `Reset` of the old state |
| `SignInModal.UserMenu.CloseModal` | apps/movie-app/src/components/UserMenu.tsx:35-38 | the fields become `Closed` of the old state |
| `SignInModal.UserMenu.PressButton` | apps/movie-app/src/components/UserMenu.tsx:170-284 | the fields become `Press` of the old state |
| `SignInModal.UserMenu.SubmitBegin` | apps/movie-app/src/components/UserMenu.tsx:40-69 | the synchronous part of `handleSubmit`, as `StartSubmit` |
| `SignInModal.UserMenu.SubmitEnd` | apps/movie-app/src/components/UserMenu.tsx:51-79 | the part after the provider answers, as `FinishSubmit` on the current state |
| `SignInModal.UserMenu.HandleSubmit` | apps/movie-app/src/components/UserMenu.tsx:40-80 | the whole `handleSubmit` with nothing in between, as `SubmitOutcome` |

## Left out

- TanStack Virtual's internals are not modelled: row offsets, `getTotalSize`, measurement,
  the 350px estimate and the overscan of 5. The indices of the visible rows are an input to
  `FetchEffect`.
- `ResizeObserver`, `getComputedStyle`, the grid ref and React's effect scheduling are not
  modelled. A resize is a call to `UpdateColumnsFromCss` with the computed style, or `None`
  when the element is not mounted.
- TanStack Query's own fetching is not modelled: retries, refetch on focus, the `data`
  undefined case of line 60, which cannot occur with `initialData`, and the cache keyed by
  locale. A fetched page arrives through `PageArrived`; a failed fetch arrives through
  `PageFailed`.
- `vote_average.toFixed(1)` (floating-point rounding) is left out. Cards carry no rating.
- ImageLoader.SizeFor: widths are integers. The loader compares a JS number, so a fractional
  width (92.5, say) is not modelled. The widths Next.js passes are its configured integer
  image sizes.
- MovieGrid.PageArrived: takes as a precondition that a next page exists and one was
  requested, as the query library guarantees. A page arriving without a request is not
  modelled.
- `fetch` and the JSON body parse are not modelled. Their outcome is an input
  (`HttpOutcome`). `console.error` logging is left out.
- `Tmdb.PopularMovies` and `Tmdb.MovieDetails` are modelled as the requests they build. They
  carry no contract beyond that of `ServiceFetch`.
- `params.locale` can be a string array in Next.js. It is taken as a string.
- The favourites table is accessed through Supabase and Drizzle. These are not modelled:
  - the table is a sequence of rows;
  - the generated `id` and `createdAt` are inputs to `Post`;
  - GET returns rows in table order, although SQL promises no order;
  - the handlers run one at a time, so the check-then-insert race in POST is not modelled.
- FavoritesApi.PostCases: a `mediaType` sent as JSON `null` is not modelled. The destructuring
  default applies only to an absent field, so `null` would reach the non-null column.
- FavoritesApi.PostCases: the body's `rating` is taken as an integer, the type of the
  `integer` column it is inserted into. The button sends a JS number, which can be
  fractional: the detail page's raw `vote_average`, or the grid's one-decimal rounding.
  What the database and driver do with a fractional value is not modelled. It may be
  rounded, or the insert may throw, which the route does not catch (a 500, and the client's
  rollback). So the 201 that `PostCases` and `PostThenGet` promise covers integer ratings only.
- FavoritesApi.DeleteCases: `parseInt` of the `movieId` parameter is an input next to its
  text, and the model does not relate the two. A text that parses to `NaN` is not modelled:
  the query would compare the integer column with `NaN`, and what the database and driver
  do then is outside the model.
- FavoritesApi.PostCases: `movie_id` and `rating` are Postgres `integer` (32-bit) columns,
  and the model's integers are unbounded. A `movieId` or `rating` outside the 32-bit range
  is not modelled. POST would then fail in the insert, which the route does not catch. The
  201 of `PostCases` and `PostThenGet` covers in-range values only. DELETE with an
  out-of-range `movieId` is not modelled either.
- The JSON body of POST is taken already parsed. A body that is not JSON is not modelled,
  and neither are type checks on its fields; only the falsy tests are modelled.
- The awaited `cancelQueries` of line 67, which cancels in-flight refetches of the list, is
  not modelled. The refetch after `invalidateQueries` is only a mark. `mutationFn` ignores the HTTP
  status, so only a rejected `fetch` rolls back.
- `useOptimistic` and `startTransition` are modelled only as the value the heart shows while
  the transition is pending.
- React's effect scheduling is not modelled: each effect of the search box is a method the
  caller runs, in any order. On mount React runs the synchronisation effect before the
  URL-watch effect; `MountOrder` states what that order does.
- `useDebounce` timing is not modelled: the debounced text is an input. Neither are
  `window.history.replaceState` and `router.push`: the model returns the action it would take.
- The sign-in provider (AuthProvider.tsx) is not part of this model: its answer is an input.
  The user dropdown, `signOut`, the loading placeholder and all rendering are left out.
- SignInModal.SubmitAlwaysSettles: the provider's answer is a resolved `{ error }` value.
  `handleSubmit` has no `try`/`finally`. A provider call whose promise rejects is not
  modelled; it would skip `setSubmitting(false)` and leave `submitting` true.
- `e.preventDefault()` and the browser's own `required` validation of the inputs are not
  modelled. The `disabled={submitting}` submit button appears only as the `submitting` flag.
- Presentation-only files are not part of this model:
  - NavBar, BackButton, ErrorPage, MovieImage, MovieCard (with its sessionStorage write);
  - the spinner and skeleton components;
  - NextLoader, ReactQueryProvider and middleware.ts.
