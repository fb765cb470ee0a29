/** The favourites endpoint of apps/movie-app/src/app/api/favorites/route.ts over the
    `favorites` table of apps/movie-app/src/db/schema.ts. The table is a sequence of rows; the
    authenticated user is an input (`None` when there is none); the handlers run one after the
    other. */
module FavoritesApi {
  import opened Wrappers
  import opened Seqs

  type UserId = string

  /** A row of `favorites`. `id` and `createdAt` are filled by the database defaults (random
      uuid, current time); `Post` takes them as inputs. */
  datatype FavoriteRow = FavoriteRow(
    id: string,
    userId: UserId,
    movieId: int,
    mediaType: string,
    title: string,
    posterPath: Option<string>,
    rating: Option<int>,
    createdAt: int)

  /** The JSON body of a POST; a field that is absent is `None`. For `posterPath` and `rating`,
      which the row stores as nullable, `null` is `None` too. A `mediaType` given as `null` is
      not represented: the destructuring default applies only to an absent field. `rating` is
      taken as the integer the `integer` column stores; a fractional JS number is not
      represented. */
  datatype PostBody = PostBody(
    movieId: Option<int>,
    mediaType: Option<string>,
    title: Option<string>,
    posterPath: Option<string>,
    rating: Option<int>)

  /** The `movieId` search parameter of a DELETE: its text, and `parseInt` of that text, taken
      as given (a text that parses to `NaN` is not modelled). */
  datatype MovieIdParam = MovieIdParam(text: string, value: int)

  datatype ResponseBody =
    | ErrorMessage(error: string)
    | RowList(rows: seq<FavoriteRow>)
    | CreatedRow(row: FavoriteRow)
    | DeleteSucceeded

  /** `NextResponse.json(body, { status })`; the status is 200 when none is given. */
  datatype Response = Response(status: int, body: ResponseBody)

  const Unauthorized: Response := Response(401, ErrorMessage("Unauthorized"))
  const FieldsRequired: Response := Response(400, ErrorMessage("movieId and title are required"))
  const AlreadyInFavorites: Response := Response(409, ErrorMessage("Already in favorites"))
  const MovieIdRequired: Response := Response(400, ErrorMessage("movieId is required"))
  const DefaultMediaType: string := "movie"

  /** A handler's response together with the table it leaves. */
  datatype Outcome = Outcome(response: Response, rows: seq<FavoriteRow>)

  predicate IsFavoriteOf(r: FavoriteRow, user: UserId, movieId: int)
  {
    r.userId == user && r.movieId == movieId
  }

  predicate SameKey(a: FavoriteRow, b: FavoriteRow)
  {
    a.userId == b.userId && a.movieId == b.movieId
  }

  /** At most one row per (userId, movieId). */
  predicate UniqueFavorites(rows: seq<FavoriteRow>)
  {
    forall i, j :: 0 <= i < j < |rows| ==> !SameKey(rows[i], rows[j])
  }

  predicate HasFavorite(rows: seq<FavoriteRow>, user: UserId, movieId: int)
  {
    exists i :: 0 <= i < |rows| && IsFavoriteOf(rows[i], user, movieId)
  }

  /** `where(eq(favorites.userId, user.id))`, in table order (SQL promises no order). */
  function UserRows(rows: seq<FavoriteRow>, user: UserId): seq<FavoriteRow>
  {
    Filter(rows, (r: FavoriteRow) => r.userId == user)
  }

  /** The table after `delete ... where userId = user and movieId = movieId`. */
  function WithoutFavorite(rows: seq<FavoriteRow>, user: UserId, movieId: int): seq<FavoriteRow>
  {
    Filter(rows, (r: FavoriteRow) => !IsFavoriteOf(r, user, movieId))
  }

  /** `!movieId || !title`: absent, 0, absent title or empty title. */
  predicate MissingFields(body: PostBody)
  {
    body.movieId.None? || body.movieId.value == 0 || body.title.None? || body.title.value == ""
  }

  /** The row POST inserts: the caller's id, `mediaType` defaulting to 'movie'. */
  function NewRow(user: UserId, body: PostBody, id: string, now: int): FavoriteRow
    requires !MissingFields(body)
  {
    FavoriteRow(id, user, body.movieId.value, body.mediaType.GetOr(DefaultMediaType), body.title.value,
                body.posterPath, body.rating, now)
  }

  /** GET. */
  function GetOutcome(rows: seq<FavoriteRow>, user: Option<UserId>): Outcome
  {
    if user.None? then Outcome(Unauthorized, rows)
    else Outcome(Response(200, RowList(UserRows(rows, user.value))), rows)
  }

  /** POST. */
  function PostOutcome(rows: seq<FavoriteRow>, user: Option<UserId>, body: PostBody, id: string, now: int): Outcome
  {
    if user.None? then Outcome(Unauthorized, rows)
    else if MissingFields(body) then Outcome(FieldsRequired, rows)
    else if HasFavorite(rows, user.value, body.movieId.value) then Outcome(AlreadyInFavorites, rows)
    else
      var row := NewRow(user.value, body, id, now);
      Outcome(Response(201, CreatedRow(row)), rows + [row])
  }

  /** DELETE. */
  function DeleteOutcome(rows: seq<FavoriteRow>, user: Option<UserId>, movieId: Option<MovieIdParam>): Outcome
  {
    if user.None? then Outcome(Unauthorized, rows)
    else if movieId.None? || movieId.value.text == "" then Outcome(MovieIdRequired, rows)
    else Outcome(Response(200, DeleteSucceeded), WithoutFavorite(rows, user.value, movieId.value.value))
  }

  /** Without a user every handler answers 401 and leaves the table as it is. */
  lemma NoUserUnauthorized(rows: seq<FavoriteRow>, body: PostBody, id: string, now: int, movieId: Option<MovieIdParam>)
    ensures GetOutcome(rows, None) == Outcome(Unauthorized, rows)
    ensures PostOutcome(rows, None, body, id, now) == Outcome(Unauthorized, rows)
    ensures DeleteOutcome(rows, None, movieId) == Outcome(Unauthorized, rows)
  {
  }

  /** GET answers with exactly the caller's rows. */
  lemma GetReturnsOwnRows(rows: seq<FavoriteRow>, user: UserId)
    ensures GetOutcome(rows, Some(user)).response.status == 200
    ensures GetOutcome(rows, Some(user)).rows == rows
    ensures var listed := GetOutcome(rows, Some(user)).response.body.rows;
      && (forall i :: 0 <= i < |listed| ==> listed[i] in rows && listed[i].userId == user)
      && (forall i :: 0 <= i < |rows| && rows[i].userId == user ==> rows[i] in listed)
  {
  }

  /** POST answers 400 for a missing or falsy movieId or title (so movieId 0 is refused) and
      409 for a movie the caller already has, leaving the table as it is in both cases;
      otherwise 201 with one new row appended: the caller's, for that movie, with the media
      type defaulting to 'movie'. */
  lemma PostCases(rows: seq<FavoriteRow>, user: UserId, body: PostBody, id: string, now: int)
    ensures MissingFields(body) ==> PostOutcome(rows, Some(user), body, id, now) == Outcome(FieldsRequired, rows)
    ensures !MissingFields(body) && HasFavorite(rows, user, body.movieId.value) ==>
      PostOutcome(rows, Some(user), body, id, now) == Outcome(AlreadyInFavorites, rows)
    ensures !MissingFields(body) && !HasFavorite(rows, user, body.movieId.value) ==>
      var out := PostOutcome(rows, Some(user), body, id, now);
      && out.response.status == 201
      && |out.rows| == |rows| + 1 && out.rows[..|rows|] == rows
      && out.rows[|rows|] == out.response.body.row
      && out.rows[|rows|].userId == user && out.rows[|rows|].movieId == body.movieId.value
      && out.rows[|rows|].mediaType == (if body.mediaType.None? then "movie" else body.mediaType.value)
  {
  }

  /** One POST after another never creates a second row for the same user and movie. */
  lemma PostKeepsUnique(rows: seq<FavoriteRow>, user: Option<UserId>, body: PostBody, id: string, now: int)
    requires UniqueFavorites(rows)
    ensures UniqueFavorites(PostOutcome(rows, user, body, id, now).rows)
  {
    var after := PostOutcome(rows, user, body, id, now).rows;
    if after != rows {
      var row := NewRow(user.value, body, id, now);
      forall i | 0 <= i < |rows| ensures !SameKey(rows[i], row) {
        assert !IsFavoriteOf(rows[i], user.value, body.movieId.value);
      }
    }
  }

  /** After a successful POST, GET lists the new row for that movie. */
  lemma PostThenGet(rows: seq<FavoriteRow>, user: UserId, body: PostBody, id: string, now: int)
    requires PostOutcome(rows, Some(user), body, id, now).response.status == 201
    ensures var after := PostOutcome(rows, Some(user), body, id, now).rows;
      var listed := GetOutcome(after, Some(user)).response.body.rows;
      exists i :: 0 <= i < |listed| && listed[i].movieId == body.movieId.value
              && listed[i] == PostOutcome(rows, Some(user), body, id, now).response.body.row
  {
    var after := PostOutcome(rows, Some(user), body, id, now).rows;
    var row := NewRow(user, body, id, now);
    assert after == rows + [row];
    FilterAppend(rows, [row], (r: FavoriteRow) => r.userId == user);
    var listed := UserRows(after, user);
    assert UserRows([row], user) == [row];
    assert listed[|listed| - 1] == row;
  }

  /** DELETE answers 400 without a movieId; otherwise it answers success whether or not a row
      matched, no row for the caller and that movie is left, and every other row stays, in
      its order. */
  lemma DeleteCases(rows: seq<FavoriteRow>, user: UserId, movieId: Option<MovieIdParam>)
    ensures movieId.None? || movieId.value.text == "" ==>
      DeleteOutcome(rows, Some(user), movieId) == Outcome(MovieIdRequired, rows)
    ensures movieId.Some? && movieId.value.text != "" ==>
      var out := DeleteOutcome(rows, Some(user), movieId);
      && out.response == Response(200, DeleteSucceeded)
      && !HasFavorite(out.rows, user, movieId.value.value)
      && (forall i :: 0 <= i < |rows| && !IsFavoriteOf(rows[i], user, movieId.value.value) ==> rows[i] in out.rows)
      && (forall i :: 0 <= i < |out.rows| ==> out.rows[i] in rows)
      && (!HasFavorite(rows, user, movieId.value.value) ==> out.rows == rows)
  {
    if movieId.Some? && movieId.value.text != "" {
      var m := movieId.value.value;
      var out := WithoutFavorite(rows, user, m);
      assert forall i :: 0 <= i < |out| ==> !IsFavoriteOf(out[i], user, m);
      if !HasFavorite(rows, user, m) {
        FilterKeepsAll(rows, (r: FavoriteRow) => !IsFavoriteOf(r, user, m));
      }
    }
  }

  /** Removing rows keeps the table free of duplicates. */
  lemma {:induction false} FilterKeepsUnique(rows: seq<FavoriteRow>, p: FavoriteRow -> bool)
    requires UniqueFavorites(rows)
    ensures UniqueFavorites(Filter(rows, p))
  {
    if |rows| > 0 {
      var tail := rows[1..];
      assert UniqueFavorites(tail) by {
        forall i, j | 0 <= i < j < |tail| ensures !SameKey(tail[i], tail[j]) {
          assert tail[i] == rows[i + 1] && tail[j] == rows[j + 1];
        }
      }
      FilterKeepsUnique(tail, p);
      var ft := Filter(tail, p);
      if p(rows[0]) {
        forall k | 0 <= k < |ft| ensures !SameKey(rows[0], ft[k]) {
          var j :| 0 <= j < |tail| && tail[j] == ft[k];
          assert rows[j + 1] == ft[k];
        }
        var r := [rows[0]] + ft;
        forall i, j | 0 <= i < j < |r| ensures !SameKey(r[i], r[j]) {
          if i > 0 {
            assert r[i] == ft[i - 1] && r[j] == ft[j - 1];
          } else {
            assert r[j] == ft[j - 1];
          }
        }
      }
    }
  }

  lemma DeleteKeepsUnique(rows: seq<FavoriteRow>, user: Option<UserId>, movieId: Option<MovieIdParam>)
    requires UniqueFavorites(rows)
    ensures UniqueFavorites(DeleteOutcome(rows, user, movieId).rows)
  {
    if user.Some? && movieId.Some? && movieId.value.text != "" {
      FilterKeepsUnique(rows, (r: FavoriteRow) => !IsFavoriteOf(r, user.value, movieId.value.value));
    }
  }

  /** The `favorites` table and the three handlers over it. */
  class FavoritesTable {
    var rows: seq<FavoriteRow>

    /** At most one row per user and movie, as the handlers keep it. */
    ghost predicate Valid()
      reads this
    {
      UniqueFavorites(rows)
    }

    constructor ()
      ensures Valid() && rows == []
    {
      rows := [];
    }

    /** `GET /api/favorites`. */
    method Get(user: Option<UserId>) returns (response: Response)
      ensures Outcome(response, rows) == GetOutcome(rows, user)
    {
      if user.None? {
        return Unauthorized;
      }
      var userFavorites := UserRows(rows, user.value);
      response := Response(200, RowList(userFavorites));
    }

    /** `POST /api/favorites` with the database's fresh `id` and current time. */
    method Post(user: Option<UserId>, body: PostBody, id: string, now: int) returns (response: Response)
      requires Valid()
      modifies this
      ensures Valid()
      ensures Outcome(response, rows) == PostOutcome(old(rows), user, body, id, now)
    {
      PostKeepsUnique(rows, user, body, id, now);
      if user.None? {
        return Unauthorized;
      }
      if MissingFields(body) {
        return FieldsRequired;
      }
      var existing := HasFavorite(rows, user.value, body.movieId.value);
      if existing {
        return AlreadyInFavorites;
      }
      var newFavorite := NewRow(user.value, body, id, now);
      rows := rows + [newFavorite];
      response := Response(201, CreatedRow(newFavorite));
    }

    /** `DELETE /api/favorites?movieId=...`. */
    method Delete(user: Option<UserId>, movieId: Option<MovieIdParam>) returns (response: Response)
      requires Valid()
      modifies this
      ensures Valid()
      ensures Outcome(response, rows) == DeleteOutcome(old(rows), user, movieId)
    {
      DeleteKeepsUnique(rows, user, movieId);
      if user.None? {
        return Unauthorized;
      }
      if movieId.None? || movieId.value.text == "" {
        return MovieIdRequired;
      }
      rows := WithoutFavorite(rows, user.value, movieId.value.value);
      response := Response(200, DeleteSucceeded);
    }
  }
}
