/** The infinite movie grid of apps/movie-app/src/components/InfiniteMovieGrid.tsx: the popular
    listing is fetched page by page, the flat list of movies is chunked into rows of `columns`
    movies, the virtualizer is given one extra sentinel row while a next page exists, and the
    next page is requested when the last visible row reaches the end of the loaded rows. The
    virtualizer's offsets and measurements are not modelled; the indices of the rows it makes
    visible are an input. */
module MovieGrid {
  import opened Wrappers
  import opened Seqs
  import opened Strings
  import Tmdb

  type Movie = Tmdb.Movie

  /** The number of columns before the first measurement (`useState(2)`). */
  const InitialColumns: nat := 2

  /** `gridTemplateColumns.split(' ').length`: the number of space-separated tokens of the
      computed `grid-template-columns` value. It is one more than the number of spaces, so it
      is never zero, which the chunking loop needs in order to advance. */
  function ColumnCount(gridTemplateColumns: string): (columns: nat)
    ensures columns == Count(gridTemplateColumns, ' ') + 1
    ensures columns >= 1
  {
    SplitCount(gridTemplateColumns, ' ');
    |Split(gridTemplateColumns, ' ')|
  }

  /** `s.slice(start, end)` for `start <= |s|`: the end is clamped to the length. */
  function Slice<T>(s: seq<T>, start: nat, end: nat): seq<T>
    requires start <= |s| && start <= end
  {
    s[start..Min(end, |s|)]
  }

  /** Specification of the chunking: the rows `s.slice(i, i + columns)` for
      i = 0, columns, 2 * columns, ... while i < |s|. */
  function Chunk<T>(s: seq<T>, columns: nat): seq<seq<T>>
    requires columns >= 1
    decreases |s|
  {
    if |s| == 0 then [] else [s[..Min(columns, |s|)]] + Chunk(s[Min(columns, |s|)..], columns)
  }

  /** The loop of lines 62-65, which pushes one slice per step of `columns`. */
  method ChunkRows<T>(allMovies: seq<T>, columns: nat) returns (virtualRows: seq<seq<T>>)
    requires columns >= 1
    ensures virtualRows == Chunk(allMovies, columns)
  {
    virtualRows := [];
    var i := 0;
    while i < |allMovies|
      invariant 0 <= i
      invariant virtualRows + Chunk(allMovies[Min(i, |allMovies|)..], columns) == Chunk(allMovies, columns)
      decreases |allMovies| - i
    {
      ghost var rest := allMovies[i..];
      var row := Slice(allMovies, i, i + columns);
      assert row == rest[..Min(columns, |rest|)];
      assert allMovies[Min(i + columns, |allMovies|)..] == rest[Min(columns, |rest|)..];
      virtualRows := virtualRows + [row];
      i := i + columns;
    }
  }

  /** Concatenating the rows gives the movie list back. */
  lemma {:induction false} ChunkFlatten<T>(s: seq<T>, columns: nat)
    requires columns >= 1
    ensures Flatten(Chunk(s, columns)) == s
  {
    if |s| > 0 {
      var m := Min(columns, |s|);
      ChunkFlatten(s[m..], columns);
      assert s[..m] + s[m..] == s;
    }
  }

  /** The row count k is the least with k * columns >= |s|. */
  lemma {:induction false} ChunkCount<T>(s: seq<T>, columns: nat)
    requires columns >= 1
    ensures |s| == 0 ==> |Chunk(s, columns)| == 0
    ensures |s| > 0 ==> (|Chunk(s, columns)| - 1) * columns < |s| <= |Chunk(s, columns)| * columns
  {
    if |s| > columns {
      var k := |Chunk(s[columns..], columns)|;
      ChunkCount(s[columns..], columns);
      assert |Chunk(s, columns)| == k + 1;
      assert (k + 1) * columns == k * columns + columns;
    }
  }

  /** Integer ceiling division is the unique k with (k - 1) * c < n <= k * c. */
  lemma CeilDivUnique(n: nat, c: nat, k: nat)
    requires c >= 1 && (k - 1) * c < n <= k * c
    ensures k == (n + c - 1) / c
  {
    var q := (n + c - 1) / c;
    assert q * c <= n + c - 1 < q * c + c;
    assert k * c <= n + c - 1 < k * c + c;
    if q < k {
      assert q * c + c <= k * c by { MulMonotone(q + 1, k, c); }
    } else if q > k {
      assert k * c + c <= q * c by { MulMonotone(k + 1, q, c); }
    }
  }

  lemma MulMonotone(a: int, b: int, c: nat)
    requires a <= b
    ensures a * c <= b * c
  {
  }

  lemma MulSucc(i: int, c: int)
    ensures (i + 1) * c == i * c + c
  {
  }

  /** Row i is exactly the slice [i * columns, min((i + 1) * columns, |s|)). */
  lemma {:induction false} ChunkRow<T>(s: seq<T>, columns: nat, i: nat)
    requires columns >= 1
    requires i < |Chunk(s, columns)|
    ensures i * columns < |s|
    ensures Chunk(s, columns)[i] == s[i * columns..Min((i + 1) * columns, |s|)]
  {
    MulSucc(i, columns);
    if i == 0 {
      assert Chunk(s, columns)[0] == s[..Min(columns, |s|)];
    } else {
      var m := Min(columns, |s|);
      var t := s[m..];
      assert Chunk(s, columns)[i] == Chunk(t, columns)[i - 1];
      ChunkRow(t, columns, i - 1);
      MulSucc(i - 1, columns);
      var lo, hi := (i - 1) * columns, Min(i * columns, |t|);
      assert m == columns;
      assert lo + columns == i * columns;
      assert hi + columns == Min((i + 1) * columns, |s|);
      assert t[lo..hi] == s[lo + columns..hi + columns];
    }
  }

  /** For n movies there are ceil(n / columns) rows; every row but the last holds exactly
      `columns` movies and the last one is not empty. */
  lemma ChunkShape<T>(s: seq<T>, columns: nat)
    requires columns >= 1
    ensures |Chunk(s, columns)| == (|s| + columns - 1) / columns
    ensures forall i :: 0 <= i < |Chunk(s, columns)| - 1 ==> |Chunk(s, columns)[i]| == columns
    ensures |Chunk(s, columns)| > 0 ==> |Chunk(s, columns)[|Chunk(s, columns)| - 1]| == |s| - (|Chunk(s, columns)| - 1) * columns > 0
  {
    var rows := Chunk(s, columns);
    ChunkCount(s, columns);
    if |s| > 0 {
      CeilDivUnique(|s|, columns, |rows|);
      LastRow(s, columns);
    }
    forall i | 0 <= i < |rows| - 1 ensures |rows[i]| == columns {
      RowFull(s, columns, i);
    }
  }

  lemma LastRow<T>(s: seq<T>, columns: nat)
    requires columns >= 1 && |s| > 0
    ensures |Chunk(s, columns)| > 0
    ensures |Chunk(s, columns)[|Chunk(s, columns)| - 1]| == |s| - (|Chunk(s, columns)| - 1) * columns > 0
  {
    var k := |Chunk(s, columns)|;
    ChunkCount(s, columns);
    ChunkRow(s, columns, k - 1);
    MulSucc(k - 1, columns);
    var lo := (k - 1) * columns;
    assert lo + columns == k * columns;
    assert Min(k * columns, |s|) == |s|;
  }

  lemma RowFull<T>(s: seq<T>, columns: nat, i: nat)
    requires columns >= 1
    requires i + 1 < |Chunk(s, columns)|
    ensures |Chunk(s, columns)[i]| == columns
  {
    ChunkRow(s, columns, i);
    ChunkRow(s, columns, i + 1);
    MulSucc(i, columns);
  }

  /** `getNextPageParam(lastPage, allPages)`: the next page number while the last page brought
      movies, and none (no next page) once a page comes back empty. */
  function GetNextPageParam(lastPage: seq<Movie>, allPages: seq<seq<Movie>>): (next: Option<int>)
    ensures next.Some? <==> |lastPage| > 0
    ensures next.Some? ==> next.value == |allPages| + 1
  {
    if |lastPage| > 0 then Some(|allPages| + 1) else None
  }

  /** The virtualizer's row count: one sentinel row more while a next page exists. */
  function VirtualCount(rowCount: nat, hasNextPage: bool): nat
  {
    if hasNextPage then rowCount + 1 else rowCount
  }

  /** `virtualRow.index > virtualRows.length - 1` (on integers: with no rows, -1). */
  predicate IsLoaderRow(index: nat, rowCount: nat)
  {
    index > rowCount - 1
  }

  /** Among the indices the virtualizer can produce, the loader row is exactly the sentinel,
      and there is one only while a next page exists. */
  lemma LoaderRowIsSentinel(index: nat, rowCount: nat, hasNextPage: bool)
    requires index < VirtualCount(rowCount, hasNextPage)
    ensures IsLoaderRow(index, rowCount) <==> hasNextPage && index == rowCount
  {
  }

  /** The effect of lines 74-85: the last visible item (`[...items].reverse()[0]`) exists, its
      index reaches the last loaded row, a next page exists and none is being fetched. */
  predicate ShouldFetchNextPage(visibleIndices: seq<nat>, rowCount: nat, hasNextPage: bool, isFetchingNextPage: bool)
  {
    && |visibleIndices| > 0
    && visibleIndices[|visibleIndices| - 1] >= rowCount - 1
    && hasNextPage
    && !isFetchingNextPage
  }

  /** A movie card as the grid renders it (the rating's rounding is not modelled). The grid
      passes no `isFavorite`, so every card's button starts from `false`. */
  datatype Card = Card(id: int, title: string, posterPath: string, priority: bool)

  datatype RowView = LoaderRow(showSpinner: bool) | MovieRow(cards: seq<Card>)

  function CardFor(m: Movie, priority: bool): Card
  {
    Card(m.id, m.title, m.posterPath, priority)
  }

  /** What one virtual row renders (lines 109-141): the loader row shows the spinner only while
      the next page is being fetched; a movie row shows one card per movie of its row, in order,
      and only row 0's cards are loaded with priority. */
  function RenderRow(index: nat, virtualRows: seq<seq<Movie>>, isFetchingNextPage: bool): (view: RowView)
    ensures view.LoaderRow? <==> index >= |virtualRows|
    ensures view.LoaderRow? ==> view.showSpinner == isFetchingNextPage
    ensures view.MovieRow? ==>
      && |view.cards| == |virtualRows[index]|
      && forall j :: 0 <= j < |view.cards| ==>
           view.cards[j].id == virtualRows[index][j].id && view.cards[j].priority == (index == 0)
  {
    if IsLoaderRow(index, |virtualRows|) then LoaderRow(isFetchingNextPage)
    else
      var movies := virtualRows[index];
      MovieRow(seq(|movies|, j requires 0 <= j < |movies| => CardFor(movies[j], index == 0)))
  }

  /** The grid's state: the measured column count, and the infinite query's pages and page
      parameters for `['movies', 'popular', locale]` together with its in-flight flag. */
  class InfiniteMovieGrid {
    const locale: string
    var columns: nat
    var pages: seq<seq<Movie>>
    var pageParams: seq<int>
    var isFetchingNextPage: bool

    /** At least one column; one page parameter per page, and the parameters are 1, 2, 3, ...:
        no page is fetched twice and none is skipped. */
    ghost predicate Valid()
      reads this
    {
      && columns >= 1
      && |pages| >= 1
      && |pageParams| == |pages|
      && forall k :: 0 <= k < |pageParams| ==> pageParams[k] == k + 1
    }

    /** `data.pages.flat()`. */
    function AllMovies(): seq<Movie>
      reads this`pages
    {
      Flatten(pages)
    }

    function NextPageParam(): Option<int>
      reads this`pages
      requires |pages| >= 1
    {
      GetNextPageParam(pages[|pages| - 1], pages)
    }

    function HasNextPage(): bool
      reads this`pages
      requires |pages| >= 1
    {
      NextPageParam().Some?
    }

    function RowCount(): nat
      reads this`pages, this`columns
      requires columns >= 1
    {
      |Chunk(AllMovies(), columns)|
    }

    /** `initialData: { pages: [initialMovies], pageParams: [1] }` and two columns. */
    constructor (locale: string, initialMovies: seq<Movie>)
      ensures Valid()
      ensures this.locale == locale && columns == InitialColumns
      ensures pages == [initialMovies] && pageParams == [1] && !isFetchingNextPage
      ensures AllMovies() == initialMovies
    {
      this.locale := locale;
      columns := InitialColumns;
      pages := [initialMovies];
      pageParams := [1];
      isFetchingNextPage := false;
      assert Flatten([initialMovies]) == initialMovies + Flatten([]);
    }

    /** `updateColumnsFromCSS`: with the grid element mounted, take the column count from its
        computed `grid-template-columns`; without it, keep the current count. */
    method UpdateColumnsFromCss(gridTemplateColumns: Option<string>)
      requires Valid()
      modifies this`columns
      ensures Valid()
      ensures columns == if gridTemplateColumns.Some? then ColumnCount(gridTemplateColumns.value) else old(columns)
    {
      if gridTemplateColumns.Some? {
        columns := ColumnCount(gridTemplateColumns.value);
      }
    }

    /** The rows of the current movie list at the current column count. */
    method VirtualRows() returns (rows: seq<seq<Movie>>)
      requires Valid()
      ensures rows == Chunk(AllMovies(), columns)
    {
      rows := ChunkRows(AllMovies(), columns);
    }

    /** One run of the fetch effect for the indices the virtualizer shows. If it calls
        `fetchNextPage`, the page requested is the next page number and the query is in flight
        until `PageArrived` or `PageFailed`, so later runs request nothing meanwhile. */
    method FetchEffect(visibleIndices: seq<nat>) returns (requestedPage: Option<int>)
      requires Valid()
      modifies this`isFetchingNextPage
      ensures Valid()
      ensures requestedPage.Some? <==> ShouldFetchNextPage(visibleIndices, RowCount(), HasNextPage(), old(isFetchingNextPage))
      ensures requestedPage.Some? ==> requestedPage.value == |pages| + 1 && isFetchingNextPage
      ensures requestedPage.None? ==> isFetchingNextPage == old(isFetchingNextPage)
    {
      var rows := VirtualRows();
      if ShouldFetchNextPage(visibleIndices, |rows|, HasNextPage(), isFetchingNextPage) {
        requestedPage := NextPageParam();
        isFetchingNextPage := true;
      } else {
        requestedPage := None;
      }
    }

    /** The fetch effect re-run once per element of `runs` (each a list of visible indices)
        while no page arrives or fails: at most one page is requested, it is the next page
        number, none is requested if a fetch was already in flight, and otherwise one is
        requested exactly when some run meets the trigger. The query is then in flight; when
        nothing is requested the flag is as it was. */
    method EffectRuns(runs: seq<seq<nat>>) returns (requested: seq<int>)
      requires Valid()
      modifies this`isFetchingNextPage
      ensures Valid()
      ensures |requested| <= 1
      ensures forall k :: 0 <= k < |requested| ==> requested[k] == |pages| + 1
      ensures old(isFetchingNextPage) ==> requested == []
      ensures requested != [] ==> isFetchingNextPage
      ensures requested == [] ==> isFetchingNextPage == old(isFetchingNextPage)
      ensures !old(isFetchingNextPage) ==>
        (requested != [] <==> exists k :: 0 <= k < |runs| && ShouldFetchNextPage(runs[k], RowCount(), HasNextPage(), false))
    {
      requested := [];
      var i := 0;
      while i < |runs|
        invariant 0 <= i <= |runs|
        invariant Valid()
        invariant |requested| <= 1
        invariant forall k :: 0 <= k < |requested| ==> requested[k] == |pages| + 1
        invariant old(isFetchingNextPage) ==> requested == [] && isFetchingNextPage
        invariant requested != [] ==> isFetchingNextPage
        invariant requested == [] ==> isFetchingNextPage == old(isFetchingNextPage)
        invariant !old(isFetchingNextPage) ==>
          (requested != [] <==> exists k :: 0 <= k < i && ShouldFetchNextPage(runs[k], RowCount(), HasNextPage(), false))
      {
        var page := FetchEffect(runs[i]);
        if page.Some? {
          requested := requested + [page.value];
        }
        i := i + 1;
      }
    }

    /** The requested page arrived: it is appended with the next page number, so the movie list
        grows by exactly that page at its end. */
    method PageArrived(page: seq<Movie>)
      requires Valid() && isFetchingNextPage && HasNextPage()
      modifies this`pages, this`pageParams, this`isFetchingNextPage
      ensures Valid()
      ensures pages == old(pages) + [page] && pageParams == old(pageParams) + [|old(pages)| + 1]
      ensures AllMovies() == old(AllMovies()) + page
      ensures !isFetchingNextPage
    {
      var next := NextPageParam();
      FlattenAppend(pages, page);
      pages := pages + [page];
      pageParams := pageParams + [next.value];
      isFetchingNextPage := false;
    }

    /** The requested page failed: nothing is appended and the query is no longer in flight. */
    method PageFailed()
      requires Valid()
      modifies this`isFetchingNextPage
      ensures Valid() && !isFetchingNextPage
    {
      isFetchingNextPage := false;
    }
  }
}
