/** The favourite toggle of apps/movie-app/src/components/FavoriteButton.tsx: a click flips the
    heart at once, updates the shared favourites list in the query cache optimistically
    (remove or append), sends DELETE or POST, and on a failed request puts the snapshot taken
    before the update back. */
module FavoriteToggle {
  import opened Wrappers
  import opened Seqs

  type UserId = string

  /** An entry of the cached favourites list, as the component types it. */
  datatype Favorite = Favorite(movieId: int)

  datatype ButtonProps = ButtonProps(movieId: int, title: string, posterPath: Option<string>, rating: real, isFavorite: bool)

  /** The two requests `mutationFn` can send. */
  datatype FavoriteRequest =
    | DeleteFavorite(movieId: int)
    | PostFavorite(movieId: int, title: string, posterPath: Option<string>, rating: real)

  /** `mutationFn`: nothing without a user; otherwise DELETE of the movie when it is a
      favourite, and POST of its id, title, poster and rating when it is not. */
  function MutationRequest(user: Option<UserId>, props: ButtonProps): (request: Option<FavoriteRequest>)
    ensures request.None? <==> user.None?
    ensures request.Some? ==> request.value.movieId == props.movieId
    ensures request.Some? ==> (request.value.DeleteFavorite? <==> props.isFavorite)
    ensures request.Some? && request.value.PostFavorite? ==>
      request.value == PostFavorite(props.movieId, props.title, props.posterPath, props.rating)
  {
    if user.None? then None
    else if props.isFavorite then Some(DeleteFavorite(props.movieId))
    else Some(PostFavorite(props.movieId, props.title, props.posterPath, props.rating))
  }

  /** `favorites.some((f) => f.movieId === id)`, how a page decides `isFavorite`. */
  predicate IsFavoriteIn(list: seq<Favorite>, movieId: int)
  {
    exists i :: 0 <= i < |list| && list[i].movieId == movieId
  }

  /** `old.filter((f) => f.movieId !== movieId)`. */
  function RemoveMovie(list: seq<Favorite>, movieId: int): seq<Favorite>
  {
    Filter(list, (f: Favorite) => f.movieId != movieId)
  }

  /** `[...old, { movieId }]`. */
  function AddMovie(list: seq<Favorite>, movieId: int): seq<Favorite>
  {
    list + [Favorite(movieId)]
  }

  /** The updater given to `setQueryData`. */
  function OptimisticList(current: Option<seq<Favorite>>, isFavorite: bool, movieId: int): seq<Favorite>
  {
    if current.None? then []
    else if isFavorite then RemoveMovie(current.value, movieId)
    else AddMovie(current.value, movieId)
  }

  /** The optimistic remove leaves no entry for the movie, keeps every other entry, splits over
      concatenation (so the kept entries stay in their order) and leaves a list without the
      movie as it is. */
  lemma RemoveMovieSpec(list: seq<Favorite>, movieId: int)
    ensures !IsFavoriteIn(RemoveMovie(list, movieId), movieId)
    ensures forall i :: 0 <= i < |list| && list[i].movieId != movieId ==> list[i] in RemoveMovie(list, movieId)
    ensures forall f :: f in RemoveMovie(list, movieId) ==> f in list
    ensures !IsFavoriteIn(list, movieId) ==> RemoveMovie(list, movieId) == list
  {
    var r := RemoveMovie(list, movieId);
    assert forall i :: 0 <= i < |r| ==> r[i].movieId != movieId;
    if !IsFavoriteIn(list, movieId) {
      FilterKeepsAll(list, (f: Favorite) => f.movieId != movieId);
    }
  }

  lemma RemoveMovieAppend(a: seq<Favorite>, b: seq<Favorite>, movieId: int)
    ensures RemoveMovie(a + b, movieId) == RemoveMovie(a, movieId) + RemoveMovie(b, movieId)
  {
    FilterAppend(a, b, (f: Favorite) => f.movieId != movieId);
  }

  /** Whatever the cached list held, the optimistic update makes the movie's membership the
      opposite of `isFavorite`: the list shows what the heart now shows. The add appends
      exactly one entry and keeps the earlier ones. */
  lemma OptimisticFlipsMembership(list: seq<Favorite>, isFavorite: bool, movieId: int)
    ensures IsFavoriteIn(OptimisticList(Some(list), isFavorite, movieId), movieId) == !isFavorite
    ensures !isFavorite ==>
      var r := OptimisticList(Some(list), isFavorite, movieId);
      |r| == |list| + 1 && r[..|list|] == list && r[|list|] == Favorite(movieId)
  {
    if isFavorite {
      RemoveMovieSpec(list, movieId);
    } else {
      var r := AddMovie(list, movieId);
      assert r[|list|].movieId == movieId;
    }
  }

  /** The query cache's favourites entries, keyed by the user id in `['favorites', user.id]`;
      a user without a key has no cached list. */
  type FavoritesCache = map<UserId, seq<Favorite>>

  /** What `onMutate` returns: `{ previousFavorites }`. */
  datatype MutateContext = MutateContext(previousFavorites: Option<seq<Favorite>>)

  function Lookup(cache: FavoritesCache, user: UserId): Option<seq<Favorite>>
  {
    if user in cache then Some(cache[user]) else None
  }

  /** The context `onMutate` returns: nothing without a user, else the snapshot of the list. */
  function ContextFor(cache: FavoritesCache, user: Option<UserId>): Option<MutateContext>
  {
    if user.None? then None else Some(MutateContext(Lookup(cache, user.value)))
  }

  /** The cache after `onMutate`: the user's list is replaced by the optimistic one, and only
      when a list was cached (an empty list counts: `[]` is truthy). */
  function AfterMutate(cache: FavoritesCache, user: Option<UserId>, props: ButtonProps): (after: FavoritesCache)
    ensures after.Keys == cache.Keys
    ensures forall u :: u in cache && Some(u) != user ==> after[u] == cache[u]
  {
    if user.None? || user.value !in cache then cache
    else cache[user.value := OptimisticList(Some(cache[user.value]), props.isFavorite, props.movieId)]
  }

  /** The cache after `onError`: with a user and a snapshot, the user's list is the snapshot. */
  function AfterError(cache: FavoritesCache, user: Option<UserId>, context: Option<MutateContext>): FavoritesCache
  {
    if user.Some? && context.Some? && context.value.previousFavorites.Some?
    then cache[user.value := context.value.previousFavorites.value]
    else cache
  }

  /** Rolling back with the context `onMutate` returned undoes `onMutate` exactly. */
  lemma RollbackRestoresSnapshot(cache: FavoritesCache, user: Option<UserId>, props: ButtonProps)
    ensures AfterError(AfterMutate(cache, user, props), user, ContextFor(cache, user)) == cache
  {
    if user.Some? && user.value in cache {
      var u := user.value;
      var after := AfterError(AfterMutate(cache, user, props), user, ContextFor(cache, user));
      assert after == cache[u := cache[u]];
      assert cache[u := cache[u]] == cache;
    }
  }

  /** The list is changed only when one was cached: with a list under the user's key it becomes
      the optimistic list, and without one the cache is left as it is. */
  lemma MutateNeedsSnapshot(cache: FavoritesCache, user: UserId, props: ButtonProps)
    ensures user !in cache ==> AfterMutate(cache, Some(user), props) == cache
    ensures user in cache ==>
      AfterMutate(cache, Some(user), props)[user] == OptimisticList(Some(cache[user]), props.isFavorite, props.movieId)
  {
  }

  /** `useOptimistic(isFavorite, (state, newFavorite) => newFavorite)`: while the click's
      transition is pending, the value it dispatched; otherwise the prop. */
  function OptimisticFavorite(isFavorite: bool, pendingDispatch: Option<bool>): bool
  {
    pendingDispatch.GetOr(isFavorite)
  }

  /** `handleClick` dispatches `!isFavorite`. */
  function ClickDispatch(isFavorite: bool): bool
  {
    !isFavorite
  }

  /** Right after a click the heart shows the opposite of `isFavorite`; once the transition is
      over it shows `isFavorite` again, whatever the server now says it is. */
  lemma ClickFlipsHeart(isFavorite: bool)
    ensures OptimisticFavorite(isFavorite, Some(ClickDispatch(isFavorite))) == !isFavorite
    ensures OptimisticFavorite(isFavorite, None) == isFavorite
  {
  }

  /** `if (!user) return null;`: no button without a user. */
  predicate Rendered(user: Option<UserId>)
  {
    user.Some?
  }

  /** Without a user there is no button, no request, no snapshot, and neither the optimistic
      update nor the rollback touches the cache. */
  lemma NoUserNoOp(cache: FavoritesCache, props: ButtonProps, context: Option<MutateContext>)
    ensures !Rendered(None)
    ensures MutationRequest(None, props) == None && ContextFor(cache, None) == None
    ensures AfterMutate(cache, None, props) == cache && AfterError(cache, None, context) == cache
  {
  }

  /** The part of the shared query client the button touches. */
  class QueryClient {
    var favorites: FavoritesCache
    /** Keys marked for refetch by `invalidateQueries`. */
    var stale: set<UserId>

    constructor (favorites: FavoritesCache)
      ensures this.favorites == favorites && stale == {}
    {
      this.favorites := favorites;
      stale := {};
    }

    /** `onMutate`: snapshot the user's list, then write the optimistic list if there was one. */
    method OnMutate(user: Option<UserId>, props: ButtonProps) returns (context: Option<MutateContext>)
      modifies this`favorites
      ensures context == ContextFor(old(favorites), user)
      ensures favorites == AfterMutate(old(favorites), user, props)
    {
      if user.None? {
        context := None;
        return;
      }
      var uid := user.value;
      var previousFavorites := Lookup(favorites, uid);
      if previousFavorites.Some? {
        favorites := favorites[uid := OptimisticList(previousFavorites, props.isFavorite, props.movieId)];
      }
      context := Some(MutateContext(previousFavorites));
    }

    /** `onError`: with a user and a snapshot, put the snapshot back. */
    method OnError(user: Option<UserId>, context: Option<MutateContext>)
      modifies this`favorites
      ensures favorites == AfterError(old(favorites), user, context)
    {
      if user.None? {
        return;
      }
      if context.Some? && context.value.previousFavorites.Some? {
        favorites := favorites[user.value := context.value.previousFavorites.value];
      }
    }

    /** `onSettled`: with a user, mark the user's favourites for refetch. */
    method OnSettled(user: Option<UserId>)
      modifies this`stale
      ensures stale == if user.Some? then old(stale) + {user.value} else old(stale)
    {
      if user.Some? {
        stale := stale + {user.value};
      }
    }

    /** One whole mutation: `onMutate`, the request, `onError` when the request is rejected,
        `onSettled`. `mutationFn` does not look at the response status, so only a rejected
        `fetch` (network failure) counts as an error. A rejected request leaves the list as it
        was before the click; an accepted one leaves the optimistic list. */
    method Toggle(user: Option<UserId>, props: ButtonProps, requestRejected: bool) returns (request: Option<FavoriteRequest>)
      modifies this`favorites, this`stale
      ensures request == MutationRequest(user, props)
      ensures favorites == if requestRejected then old(favorites) else AfterMutate(old(favorites), user, props)
      ensures stale == if user.Some? then old(stale) + {user.value} else old(stale)
    {
      var context := OnMutate(user, props);
      request := MutationRequest(user, props);
      if requestRejected {
        OnError(user, context);
        RollbackRestoresSnapshot(old(favorites), user, props);
      }
      OnSettled(user);
    }
  }
}
