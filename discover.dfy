/**
 * Catalog queries: the parameters of the "discover" request built from an
 * anti-preference record, the single fallback request when the first one comes
 * back empty (the live `get_worst_rated_movies`), and the random popular-poster
 * fetch (`get_random_posters`). HTTP, randomness and shuffling are parameters.
 */
module Discover {
  import opened Wrappers
  import opened Strings
  import opened Posters
  import opened Preferences

  /** A query-parameter value as `requests` would encode it. */
  datatype ParamValue = Text(s: string) | Int(i: int) | Flag(b: bool) | Decimal(r: real)

  type Params = map<string, ParamValue>

  /**
   * What a catalog request yields: a JSON body whose `results` key may be absent,
   * or `Unavailable` when the request raises (network error, non-success status
   * from `raise_for_status`, a body that is not JSON).
   */
  datatype Response = Body(results: Option<seq<RawMovie>>) | Unavailable

  /** `response.json().get('results', [])`. */
  function ResultsOf(r: Response): (movies: seq<RawMovie>)
    requires r.Body?
    ensures r.results.None? ==> movies == []
    ensures r.results.Some? ==> movies == r.results.value
  {
    r.results.GetOr([])
  }

  /** Why `get_random_posters` raises. */
  datatype PosterError = CatalogUnavailable | MissingMovieId | NoValidPosters

  const DefaultSort := "vote_average.asc"
  const MaxVoteAverage: real := 5.0
  const FallbackVoteAverage: real := 3.5

  /** The parameters every discover request starts from; `page` is `random.randint(1, 5)`. */
  function BaseDiscoverParams(page: int): (p: Params)
    ensures p.Keys == {"language", "include_adult", "page", "vote_count.gte"}
  {
    map["language" := Text("en-US"), "include_adult" := Flag(false),
        "page" := Int(page), "vote_count.gte" := Int(50)]
  }

  /** The fixed parameters of the one fallback request. */
  function FallbackParams(page: int): (p: Params)
    ensures p.Keys == {"language", "include_adult", "vote_count.gte", "vote_average.lte", "sort_by", "page"}
    ensures p["vote_average.lte"] == Decimal(FallbackVoteAverage) && p["sort_by"] == Text(DefaultSort)
    ensures p["vote_count.gte"] == Int(50) && p["page"] == Int(page)
    ensures p["language"] == Text("en-US") && p["include_adult"] == Flag(false)
  {
    map["language" := Text("en-US"), "include_adult" := Flag(false), "vote_count.gte" := Int(50),
        "vote_average.lte" := Decimal(FallbackVoteAverage), "sort_by" := Text(DefaultSort),
        "page" := Int(page)]
  }

  /** The popular-list parameters of `get_random_posters`; `page` is `random.randint(1, 20)`. */
  function PopularParams(page: int): (p: Params)
    ensures p.Keys == {"page", "language", "include_adult"}
    ensures p["page"] == Int(page) && p["language"] == Text("en-US") && p["include_adult"] == Flag(false)
  {
    map["page" := Int(page), "language" := Text("en-US"), "include_adult" := Flag(false)]
  }

  /** `min(5.0, v)`: never above 5.0, and `v` itself when it is not above. */
  function ClampVote(v: real): (r: real)
    ensures r <= MaxVoteAverage
    ensures v <= MaxVoteAverage ==> r == v
    ensures v > MaxVoteAverage ==> r == MaxVoteAverage
  {
    if v < MaxVoteAverage then v else MaxVoteAverage
  }

  /** `'|'.join(map(str, genres))`. */
  function GenresParam(genres: seq<int>): (r: string)
    ensures r == "" <==> genres == []
    ensures genres != [] ==>
      var first := IntToString(genres[0]);
      |first| <= |r| && r[..|first|] == first
  {
    Join(seq(|genres|, k requires 0 <= k < |genres| => IntToString(genres[k])), '|')
  }

  /** The genre list can be read back from the parameter: split at `|` and parse each piece. */
  lemma GenresParamRoundTrip(genres: seq<int>)
    requires genres != []
    ensures var pieces := Split(GenresParam(genres), '|');
      |pieces| == |genres| &&
      forall k :: 0 <= k < |genres| ==> IsIntText(pieces[k]) && ParseInt(pieces[k]) == genres[k]
  {
    var parts := seq(|genres|, k requires 0 <= k < |genres| => IntToString(genres[k]));
    SplitJoin(parts, '|');
    forall k | 0 <= k < |genres| ensures IsIntText(parts[k]) && ParseInt(parts[k]) == genres[k] {
      ParseIntToString(genres[k]);
    }
  }

  /** `random.sample(genres, min(2, len(genres)))`: that many elements drawn without replacement. */
  predicate IsSample(sampled: seq<int>, genres: seq<int>) {
    |sampled| == Min(2, |genres|) && multiset(sampled) <= multiset(genres)
  }

  predicate Distinct(s: seq<int>) {
    forall i, j :: 0 <= i < j < |s| ==> s[i] != s[j]
  }

  lemma {:induction false} DistinctMultiplicity(s: seq<int>, x: int)
    requires Distinct(s)
    ensures multiset(s)[x] <= 1
  {
    if s != [] {
      assert s == [s[0]] + s[1..];
      DistinctMultiplicity(s[1..], x);
      if s[0] == x {
        assert x !in s[1..];
      }
    }
  }

  /** Drawn from distinct genre ids, the sampled ids are distinct members of the list. */
  lemma SampleIsDistinct(sampled: seq<int>, genres: seq<int>)
    requires IsSample(sampled, genres) && Distinct(genres)
    ensures Distinct(sampled)
    ensures forall x :: x in sampled ==> x in genres
  {
    forall x | x in sampled ensures x in genres {
      assert x in multiset(sampled);
    }
    forall i, j | 0 <= i < j < |sampled| ensures sampled[i] != sampled[j] {
      if sampled[i] == sampled[j] {
        var x := sampled[i];
        assert sampled == sampled[..j] + [x] + sampled[j + 1..];
        assert x in sampled[..j];
        assert multiset(sampled)[x] >= 2;
        DistinctMultiplicity(genres, x);
        assert false;
      }
    }
  }

  /**
   * The dictionary passed to `params.update(...)` for a truthy anti-preference
   * record; `None` when building it raises (the record is not an object, or
   * lacks `genres_to_include`, `min_year` or `max_year`).
   */
  function PrefsUpdate(p: Prefs, sampled: seq<int>): (u: Option<Params>)
    ensures u.Some? <==> p.Object? && p.genres.Some? && p.minYear.Some? && p.maxYear.Some?
    ensures u.Some? ==> (u.value.Keys ==
      {"with_genres", "primary_release_date.gte", "primary_release_date.lte", "vote_average.lte", "sort_by"})
    ensures u.Some? ==> u.value["with_genres"] == Text(GenresParam(sampled))
    ensures u.Some? ==> u.value["primary_release_date.gte"] == Text(p.minYear.value + "-01-01")
    ensures u.Some? ==> u.value["primary_release_date.lte"] == Text(p.maxYear.value + "-12-31")
    ensures u.Some? ==> u.value["vote_average.lte"].Decimal? && u.value["vote_average.lte"].r <= MaxVoteAverage
    ensures u.Some? && p.voteAverageLte.Some? && p.voteAverageLte.value <= MaxVoteAverage ==>
      u.value["vote_average.lte"] == Decimal(p.voteAverageLte.value)
    ensures u.Some? && p.voteAverageLte.Some? && p.voteAverageLte.value > MaxVoteAverage ==>
      u.value["vote_average.lte"] == Decimal(MaxVoteAverage)
    ensures u.Some? && p.voteAverageLte.None? ==> u.value["vote_average.lte"] == Decimal(MaxVoteAverage)
    ensures u.Some? && p.sortPreference.None? ==> u.value["sort_by"] == Text(DefaultSort)
    ensures u.Some? && p.sortPreference.Some? ==> u.value["sort_by"] == Text(p.sortPreference.value)
  {
    match p
    case NonObject(_) => None
    case Object(genres, minYear, maxYear, vote, sort, _, _) =>
      if genres.None? || minYear.None? || maxYear.None? then None
      else Some(map[
        "with_genres" := Text(GenresParam(sampled)),
        "primary_release_date.gte" := Text(minYear.value + "-01-01"),
        "primary_release_date.lte" := Text(maxYear.value + "-12-31"),
        "vote_average.lte" := Decimal(ClampVote(vote.GetOr(MaxVoteAverage))),
        "sort_by" := Text(sort.GetOr(DefaultSort))])
  }

  /** The sample is drawn only from a record that gets as far as sampling. */
  predicate SampleFits(prefs: Option<Prefs>, sampled: seq<int>) {
    prefs.Some? && Truthy(prefs.value) && prefs.value.Object? && prefs.value.genres.Some? ==>
      IsSample(sampled, prefs.value.genres.value)
  }

  /**
   * The parameters of the first request, or `None` when building them raises:
   * the base parameters, updated from a truthy record.
   */
  function FirstParams(page: int, prefs: Option<Prefs>, sampled: seq<int>): (r: Option<Params>)
    ensures prefs.None? || !Truthy(prefs.value) ==> r == Some(BaseDiscoverParams(page))
    ensures prefs.Some? && Truthy(prefs.value) ==>
      (r.None? <==> PrefsUpdate(prefs.value, sampled).None?)
    ensures r.Some? && prefs.Some? && Truthy(prefs.value) ==>
      var u := PrefsUpdate(prefs.value, sampled).value;
      && r.value.Keys == BaseDiscoverParams(page).Keys + u.Keys
      && (forall k :: k in u ==> r.value[k] == u[k])
      && (forall k :: k in BaseDiscoverParams(page) ==> r.value[k] == BaseDiscoverParams(page)[k])
  {
    if prefs.None? || !Truthy(prefs.value) then Some(BaseDiscoverParams(page))
    else match PrefsUpdate(prefs.value, sampled)
      case None => None
      case Some(u) => Some(BaseDiscoverParams(page) + u)
  }

  /**
   * Whatever the record, the first request keeps the base parameters: English,
   * no adult titles, a page between 1 and 5 and at least 50 votes; without a
   * truthy record they are all it sends.
   */
  lemma FirstParamsKeepBase(page: int, prefs: Option<Prefs>, sampled: seq<int>)
    requires 1 <= page <= 5
    requires FirstParams(page, prefs, sampled).Some?
    ensures var p := FirstParams(page, prefs, sampled).value;
      && p["language"] == Text("en-US") && p["include_adult"] == Flag(false)
      && p["page"].Int? && 1 <= p["page"].i <= 5 && p["vote_count.gte"] == Int(50)
    ensures prefs.None? || !Truthy(prefs.value) ==> FirstParams(page, prefs, sampled).value == BaseDiscoverParams(page)
  {
  }

  /** The only samples of two distinct ids are the two orders of the pair. */
  lemma SampleOfPair(sampled: seq<int>, a: int, b: int)
    requires a != b && IsSample(sampled, [a, b])
    ensures sampled == [a, b] || sampled == [b, a]
  {
    var x, y := sampled[0], sampled[1];
    assert sampled == [x, y];
    assert multiset(sampled) == multiset{x, y};
    assert x in multiset([a, b]) && y in multiset([a, b]);
    assert x != y;
  }

  /** Two ids are written with one separator between them. */
  lemma GenresParamPair(a: int, b: int)
    ensures GenresParam([a, b]) == IntToString(a) + "|" + IntToString(b)
  {
    var parts := seq(2, k requires 0 <= k < 2 => IntToString([a, b][k]));
    assert GenresParam([a, b]) == Join(parts, '|');
    assert parts[1..] == [parts[1]];
    assert Join(parts, '|') == parts[0] + ['|'] + Join(parts[1..], '|');
  }

  /** The decimal forms of the two fallback genre ids. */
  lemma FallbackGenreTexts()
    ensures IntToString(35) == "35" && IntToString(27) == "27"
  {
  }

  /** Sampling both fallback genres writes them in one order or the other. */
  lemma FallbackGenresParam(sampled: seq<int>)
    requires IsSample(sampled, [35, 27])
    ensures GenresParam(sampled) in {"35|27", "27|35"}
  {
    SampleOfPair(sampled, 35, 27);
    FallbackGenreTexts();
    if sampled == [35, 27] {
      GenresParamPair(35, 27);
      assert "35" + "|" + "27" == "35|27";
    } else {
      GenresParamPair(27, 35);
      assert "27" + "|" + "35" == "27|35";
    }
  }

  /**
   * The fallback record of the analysis always yields a targeted query: both of
   * its genres, the years 1900 to 2024, at most 5.0 and the ascending-rating sort.
   */
  lemma FallbackPrefsQuery(page: int, sampled: seq<int>)
    requires IsSample(sampled, [35, 27])
    ensures var p := FirstParams(page, Some(FallbackPrefs), sampled);
      && p.Some?
      && p.value["with_genres"] in {Text("35|27"), Text("27|35")}
      && p.value["primary_release_date.gte"] == Text("1900-01-01")
      && p.value["primary_release_date.lte"] == Text("2024-12-31")
      && p.value["vote_average.lte"] == Decimal(5.0)
      && p.value["sort_by"] == Text(DefaultSort)
  {
    FallbackPrefsUpdate(sampled);
    assert Truthy(FallbackPrefs);
    var u := PrefsUpdate(FallbackPrefs, sampled).value;
    var p := FirstParams(page, Some(FallbackPrefs), sampled).value;
    assert forall k :: k in u ==> p[k] == u[k];
  }

  /** The update built from the fallback record. */
  lemma FallbackPrefsUpdate(sampled: seq<int>)
    requires IsSample(sampled, [35, 27])
    ensures var u := PrefsUpdate(FallbackPrefs, sampled);
      && u.Some?
      && u.value["with_genres"] in {Text("35|27"), Text("27|35")}
      && u.value["primary_release_date.gte"] == Text("1900-01-01")
      && u.value["primary_release_date.lte"] == Text("2024-12-31")
      && u.value["vote_average.lte"] == Decimal(5.0)
      && u.value["sort_by"] == Text(DefaultSort)
  {
    FallbackGenresParam(sampled);
    assert "1900" + "-01-01" == "1900-01-01";
    assert "2024" + "-12-31" == "2024-12-31";
  }

  /**
   * The live `get_worst_rated_movies`. `page` and `fallbackPage` are the two
   * `random.randint(1, 5)` draws, `sampled` the `random.sample` draw, `discover`
   * the catalog's answer to a request and `shuffle` the `random.shuffle` of the
   * result list. `sent` lists the requests made, in order. Every failure ends in
   * an empty list rather than an exception.
   */
  method GetWorstRatedMovies(
    count: int,
    prefs: Option<Prefs>,
    page: int,
    sampled: seq<int>,
    fallbackPage: int,
    discover: Params -> Response,
    shuffle: seq<RawMovie> -> seq<RawMovie>)
    returns (posters: seq<Poster>, sent: seq<Params>)
    requires 1 <= page <= 5 && 1 <= fallbackPage <= 5
    requires SampleFits(prefs, sampled)
    requires forall s :: multiset(shuffle(s)) == multiset(s)
    // the first request, unless building its parameters raised
    ensures sent == [] <==> FirstParams(page, prefs, sampled).None?
    ensures sent != [] ==> sent[0] == FirstParams(page, prefs, sampled).value
    // the fallback request: only after a first request that answered with no results
    ensures |sent| <= 2
    ensures |sent| == 2 <==> sent != [] && discover(sent[0]).Body? && ResultsOf(discover(sent[0])) == []
    ensures |sent| == 2 ==> sent[1] == FallbackParams(fallbackPage)
    // the outcome: any failure gives [], else the shaped records of the last answer
    ensures sent == [] || discover(sent[|sent| - 1]).Unavailable? ==> posters == []
    ensures sent != [] && discover(sent[|sent| - 1]).Body? ==>
      var shaped := ShapePosters(PyTake(shuffle(ResultsOf(discover(sent[|sent| - 1]))), count));
      posters == if shaped.Some? then shaped.value else []
    ensures count >= 0 ==> |posters| <= count
    ensures forall p :: p in posters ==> IsPosterUrl(p.posterUrl)
    ensures posters != [] ==> forall p :: p in posters ==> CameFrom(p, ResultsOf(discover(sent[|sent| - 1])))
  {
    sent := [];
    posters := [];
    var params := BaseDiscoverParams(page);
    if prefs.Some? && Truthy(prefs.value) {
      var update := PrefsUpdate(prefs.value, sampled);
      if update.None? {
        return;
      }
      params := params + update.value;
    }
    sent := sent + [params];
    var response := discover(params);
    if response.Unavailable? {
      return;
    }
    var moviesData := ResultsOf(response);
    if moviesData == [] {
      params := FallbackParams(fallbackPage);
      sent := sent + [params];
      response := discover(params);
      if response.Unavailable? {
        return;
      }
      moviesData := ResultsOf(response);
    }
    var shuffled := shuffle(moviesData);
    var limited := PyTake(shuffled, count);
    var shaped := ShapePosters(limited);
    if shaped.Some? {
      posters := shaped.value;
      ShapedPostersAreValid(limited);
      ShapedPostersCameFrom(limited);
      CameFromShuffled(posters, limited, moviesData, shuffled);
    }
  }

  /** A record made from a slice of the shuffled list came from the list itself. */
  lemma CameFromShuffled(posters: seq<Poster>, limited: seq<RawMovie>, data: seq<RawMovie>, shuffled: seq<RawMovie>)
    requires multiset(shuffled) == multiset(data)
    requires |limited| <= |shuffled| && limited == shuffled[..|limited|]
    requires forall p :: p in posters ==> CameFrom(p, limited)
    ensures forall p :: p in posters ==> CameFrom(p, data)
  {
    forall p | p in posters ensures CameFrom(p, data) {
      var m :| m in limited && HasPoster(m) && ToPoster(m) == Some(p);
      assert m in shuffled;
      assert m in multiset(shuffled);
      assert m in data;
    }
  }

  /**
   * `get_random_posters`: one popular-list request for page `page`
   * (`random.randint(1, 20)`), shuffled, cut to `count` and shaped. Unlike the
   * discover query it raises, here a `Failure`, and it does so also when no
   * record survives the shaping.
   */
  method GetRandomPosters(
    count: int,
    page: int,
    popular: Params -> Response,
    shuffle: seq<RawMovie> -> seq<RawMovie>)
    returns (result: Result<seq<Poster>, PosterError>, sent: Params)
    requires 1 <= page <= 20
    requires forall s :: multiset(shuffle(s)) == multiset(s)
    ensures sent == PopularParams(page)
    ensures popular(sent).Unavailable? <==> result == Failure(CatalogUnavailable)
    ensures popular(sent).Body? ==>
      var shaped := ShapePosters(PyTake(shuffle(ResultsOf(popular(sent))), count));
      && (shaped.None? <==> result == Failure(MissingMovieId))
      && (shaped == Some([]) <==> result == Failure(NoValidPosters))
      && (result.Success? ==> shaped == Some(result.value))
    ensures result.Success? ==> result.value != []
    ensures result.Success? && count >= 0 ==> |result.value| <= count
    ensures result.Success? ==> forall p :: p in result.value ==> IsPosterUrl(p.posterUrl)
  {
    sent := PopularParams(page);
    var response := popular(sent);
    if response.Unavailable? {
      return Failure(CatalogUnavailable), sent;
    }
    var moviesData := shuffle(ResultsOf(response));
    moviesData := PyTake(moviesData, count);
    var shaped := ShapePosters(moviesData);
    if shaped.None? {
      return Failure(MissingMovieId), sent;
    }
    if shaped.value == [] {
      return Failure(NoValidPosters), sent;
    }
    ShapedPostersAreValid(moviesData);
    result := Success(shaped.value);
  }
}
