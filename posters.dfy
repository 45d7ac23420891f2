/**
 * Shaping of catalog results into poster records: the list comprehension that
 * keeps the entries with a poster path and fills in defaults for the rest.
 */
module Posters {
  import opened Wrappers
  import opened Strings

  const ImageBaseUrl := "https://image.tmdb.org/t/p/w500"
  const UnknownTitle := "Unknown Title"
  const NoSummary := "No summary available"

  /** One raw entry of a catalog `results` list; an absent key is `None`. */
  datatype RawMovie = RawMovie(
    id: Option<int>,
    title: Option<string>,
    posterPath: Option<string>,
    releaseDate: Option<string>,
    genreIds: Option<seq<int>>,
    overview: Option<string>,
    voteAverage: Option<real>)

  /** The record handed to the templates. */
  datatype Poster = Poster(
    id: int,
    title: string,
    posterUrl: string,
    year: string,
    genreIds: seq<int>,
    summary: string,
    voteAverage: real)

  /** `movie.get('poster_path')` is truthy: present and not the empty string. */
  predicate HasPoster(m: RawMovie) {
    m.posterPath.Some? && m.posterPath.value != ""
  }

  /** The image base URL followed by a non-empty path. */
  predicate IsPosterUrl(url: string) {
    |url| > |ImageBaseUrl| && url[..|ImageBaseUrl|] == ImageBaseUrl
  }

  /** Number of entries the comprehension's filter drops. */
  function CountWithoutPoster(movies: seq<RawMovie>): nat {
    if movies == [] then 0
    else (if HasPoster(movies[0]) then 0 else 1) + CountWithoutPoster(movies[1..])
  }

  /** `a` is `b` with some elements left out, order kept. */
  predicate IsSubsequence<T(==)>(a: seq<T>, b: seq<T>)
    decreases |b|
  {
    if a == [] then true
    else if b == [] then false
    else if a[0] == b[0] then IsSubsequence(a[1..], b[1..])
    else IsSubsequence(a, b[1..])
  }

  /**
   * The entries that pass the comprehension's filter. Being an in-order
   * subsequence made only of entries with a poster, as long as the number of
   * such entries, it is exactly those entries: dropped, not replaced, not reordered.
   */
  function Kept(movies: seq<RawMovie>): (r: seq<RawMovie>)
    ensures |r| + CountWithoutPoster(movies) == |movies|
    ensures forall k :: 0 <= k < |r| ==> HasPoster(r[k])
    ensures IsSubsequence(r, movies)
  {
    if movies == [] then []
    else if HasPoster(movies[0]) then [movies[0]] + Kept(movies[1..])
    else Kept(movies[1..])
  }

  /** `movie.get('release_date', '')[:4]`. */
  function YearOf(releaseDate: Option<string>): (y: string)
    ensures releaseDate.None? ==> y == ""
    ensures releaseDate.Some? ==> |y| == Min(4, |releaseDate.value|) && y == releaseDate.value[..|y|]
  {
    PyTake(releaseDate.GetOr(""), 4)
  }

  /**
   * One record of the comprehension. `movie['id']` raises when the key is
   * absent, which is `None` here; every other field has a default.
   */
  function ToPoster(m: RawMovie): (r: Option<Poster>)
    requires HasPoster(m)
    ensures r.Some? <==> m.id.Some?
    ensures r.Some? ==> r.value.id == m.id.value
    ensures r.Some? ==> IsPosterUrl(r.value.posterUrl) && r.value.posterUrl[|ImageBaseUrl|..] == m.posterPath.value
    ensures r.Some? ==> (m.title.None? ==> r.value.title == UnknownTitle) && (m.title.Some? ==> r.value.title == m.title.value)
    ensures r.Some? ==> (m.overview.None? ==> r.value.summary == NoSummary) && (m.overview.Some? ==> r.value.summary == m.overview.value)
    ensures r.Some? ==> (m.voteAverage.None? ==> r.value.voteAverage == 0.0) && (m.voteAverage.Some? ==> r.value.voteAverage == m.voteAverage.value)
    ensures r.Some? ==> (m.genreIds.None? ==> r.value.genreIds == []) && (m.genreIds.Some? ==> r.value.genreIds == m.genreIds.value)
    ensures r.Some? ==> |r.value.year| <= 4 && r.value.year == YearOf(m.releaseDate)
  {
    match m.id
    case None => None
    case Some(id) =>
      Some(Poster(
        id,
        m.title.GetOr(UnknownTitle),
        ImageBaseUrl + m.posterPath.value,
        YearOf(m.releaseDate),
        m.genreIds.GetOr([]),
        m.overview.GetOr(NoSummary),
        m.voteAverage.GetOr(0.0)))
  }

  /**
   * The whole comprehension: `None` when it raises (a kept entry without an
   * `id`), otherwise one record per kept entry, in order.
   */
  function ShapePosters(movies: seq<RawMovie>): (r: Option<seq<Poster>>)
    ensures r.Some? <==> forall k :: 0 <= k < |movies| && HasPoster(movies[k]) ==> movies[k].id.Some?
    ensures r.Some? ==> |r.value| == |Kept(movies)|
    ensures r.Some? ==> forall k :: 0 <= k < |r.value| ==> ToPoster(Kept(movies)[k]) == Some(r.value[k])
  {
    if movies == [] then Some([])
    else
      var rest := ShapePosters(movies[1..]);
      if !HasPoster(movies[0]) then rest
      else match ToPoster(movies[0])
        case None => None
        case Some(p) => if rest.None? then None else Some([p] + rest.value)
  }

  /** Every shaped record points at a real poster, and there are no more records than entries. */
  lemma ShapedPostersAreValid(movies: seq<RawMovie>)
    requires ShapePosters(movies).Some?
    ensures |ShapePosters(movies).value| <= |movies|
    ensures forall p :: p in ShapePosters(movies).value ==> IsPosterUrl(p.posterUrl)
  {
  }

  /** Each shaped record is the record of some entry of the input that has a poster. */
  predicate CameFrom(p: Poster, movies: seq<RawMovie>) {
    exists m :: m in movies && HasPoster(m) && ToPoster(m) == Some(p)
  }

  lemma ShapedPostersCameFrom(movies: seq<RawMovie>)
    requires ShapePosters(movies).Some?
    ensures forall p :: p in ShapePosters(movies).value ==> CameFrom(p, movies)
  {
  }

  /** With all entries carrying an `id`, the output has exactly one record per entry with a poster. */
  lemma ShapedCount(movies: seq<RawMovie>)
    requires forall k :: 0 <= k < |movies| ==> movies[k].id.Some?
    ensures ShapePosters(movies).Some?
    ensures |ShapePosters(movies).value| == |movies| - CountWithoutPoster(movies)
  {
  }
}
