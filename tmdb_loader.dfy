/** The image loader of apps/movie-app/src/lib/tmdb-loader.ts: it maps the pixel width an image
    is requested at to one of TMDB's seven poster sizes and prefixes TMDB's image host. Widths
    are integers (the widths Next.js asks a loader for are its configured image sizes). */
module ImageLoader {

  /** TMDB's poster sizes, smallest first. */
  datatype PosterSize = W92 | W154 | W185 | W342 | W500 | W780 | Original

  /** The size's path segment in the image URL. */
  function Token(size: PosterSize): string
  {
    match size
    case W92 => "w92"
    case W154 => "w154"
    case W185 => "w185"
    case W342 => "w342"
    case W500 => "w500"
    case W780 => "w780"
    case Original => "original"
  }

  /** Position in the order W92 < W154 < ... < W780 < Original. */
  function Rank(size: PosterSize): nat
  {
    match size
    case W92 => 0
    case W154 => 1
    case W185 => 2
    case W342 => 3
    case W500 => 4
    case W780 => 5
    case Original => 6
  }

  /** The pixel width `wN` stands for (N); `original` has none. */
  function Pixels(size: PosterSize): int
    requires size != Original
  {
    match size
    case W92 => 92
    case W154 => 154
    case W185 => 185
    case W342 => 342
    case W500 => 500
    case W780 => 780
  }

  /** The if/else chain of `tmdbLoader`: `original` unless some bucket bound is reached. The
      chosen bucket is wide enough, and no smaller bucket is. */
  function SizeFor(width: int): (size: PosterSize)
    ensures size == Original <==> width > 780
    ensures size != Original ==> width <= Pixels(size)
    ensures forall s :: s != Original && width <= Pixels(s) ==> Rank(size) <= Rank(s)
  {
    if width <= 92 then W92
    else if width <= 154 then W154
    else if width <= 185 then W185
    else if width <= 342 then W342
    else if width <= 500 then W500
    else if width <= 780 then W780
    else Original
  }

  /** The bucket bounds as a list, smallest first. */
  const Bounds: seq<int> := [92, 154, 185, 342, 500, 780]

  /** The size at position `k` of the order (`original` past the end of the bounds). */
  function SizeAt(k: nat): PosterSize
    requires k <= 6
  {
    [W92, W154, W185, W342, W500, W780, Original][k]
  }

  /** Reference definition: the index of the first bound that is at least `width`
      (`|bounds|` when there is none). */
  function FirstFit(bounds: seq<int>, width: int): (k: nat)
    ensures k <= |bounds|
    ensures forall i :: 0 <= i < k ==> bounds[i] < width
    ensures k < |bounds| ==> width <= bounds[k]
  {
    if |bounds| == 0 then 0
    else if width <= bounds[0] then 0
    else 1 + FirstFit(bounds[1..], width)
  }

  /** The chain picks the smallest of 92, 154, 185, 342, 500, 780 that is at least the width,
      and `original` when there is none. */
  lemma SizeForIsFirstFit(width: int)
    ensures SizeFor(width) == SizeAt(FirstFit(Bounds, width))
  {
    var k := FirstFit(Bounds, width);
    assert k < 6 ==> width <= Bounds[k];
    assert k > 0 ==> Bounds[k - 1] < width;
  }

  /** A larger width never selects a smaller size. */
  lemma SizeForMonotone(w1: int, w2: int)
    requires w1 <= w2
    ensures Rank(SizeFor(w1)) <= Rank(SizeFor(w2))
  {
  }

  const ImageHost: string := "https://image.tmdb.org/t/p/"

  /** `tmdbLoader({src, width})`: the host, then the size token, then `src` exactly as given. */
  function TmdbLoader(src: string, width: int): (url: string)
    ensures |url| == |ImageHost| + |Token(SizeFor(width))| + |src|
    ensures url[..|ImageHost|] == ImageHost
    ensures url[|ImageHost|..|url| - |src|] == Token(SizeFor(width))
    ensures url[|url| - |src|..] == src
  {
    ImageHost + Token(SizeFor(width)) + src
  }
}
