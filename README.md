# antimovies: a Dafny model of the anti-recommendation core

antimovies suggests films a user would dislike. The user picks films they enjoy. A language model turns those into an "anti-preference" record, and the TMDB catalog is queried with filters built from that record. This project models the deterministic parts of that pipeline in Dafny and proves properties about them:

- `truncation.dfy` covers prompt truncation (`_truncate_text`). A prompt over the 4000-character budget is cut to the budget. It is then cut back to just after the last `}` in the cut, if there is one.
- `preferences.dfy` covers anti-preference extraction (`analyze_preferences`). The model's reply is searched for the first block fenced as "```json" … "```". That block is parsed. Any failure yields the fixed fallback record: genres 35 and 27, years "1900" to "2024", vote at most 5.0, sort "vote_average.asc", and three fixed keywords.
- `discover.dfy` covers the catalog queries:
  - the parameters of the discover request built from an anti-preference record;
  - the single fallback request (rating at most 3.5), made only when the first request returns no results;
  - the rule that the live `get_worst_rated_movies` turns every failure into an empty list;
  - `get_random_posters`, which instead fails when no poster survives.
- `posters.dfy` covers poster shaping. Results are shuffled and cut to the requested count. Entries without a poster path are dropped, and each remaining entry becomes a record with defaulted fields.
- `page_size.dfy` covers page sizing in `calculate_movies_needed`. Two or four cards per row, depending on the md breakpoint. `ceil(height / 400)` rows plus one extra row. The total is rounded up to a multiple of five.
- `strings.dfy` holds the Python built-ins these rely on: slicing, `find`, `rfind`, `str(int)`, `join` and `split`. Each comes with a characterisation or an inverse.

Collaborators are parameters, not code:
- The catalog is a function from request parameters to a `Response`. `Unavailable` stands for any raised error: network, `raise_for_status`, or a body that is not JSON.
- The language model is a function from the truncated prompt to an optional reply.
- `json.loads` is a partial function from text to a parsed value (`Prefs`).
- Randomness is a caller's choice:
  - each `random.randint` is a page number with its range as a precondition;
  - `random.sample` is a `sampled` list whose multiset is contained in the genre list and whose length is `min(2, len)`;
  - `random.shuffle` is a function that preserves multisets.

What the code does, as modelled:
- The fallback record has genres `[35, 27]`, vote 5.0 and the keywords "low budget", "bad acting", "poor special effects".
- The discover query makes at most one fallback request, with fixed parameters.
- The live `get_worst_rated_movies` returns an empty list on every failure, including when no results come back.
- `sort_preference` is passed through unchecked, and `keywords` is never read.
- `_truncate_text` can leave the embedded JSON unbalanced. `Truncation.TruncationMayUnbalance` shows a cut that leaves a `[` unclosed.

The second definition of `get_worst_rated_movies` (movie_service.py:222) shadows the first (movie_service.py:66), and only the second is modelled.

## Model

| member | source | states |
|---|---|---|
| Truncation.TruncateText | movie_service.py:329-338 | a text within the budget is returned unchanged; the result is always a prefix of the input no longer than the budget; when the cut holds a `}`, the result ends with the last `}` of the cut and no `}` lies between it and the budget; when the cut holds none, the result is exactly the first `max_chars` characters |
| Truncation.TruncateIdempotent | movie_service.py:329-338 | truncating twice gives the same text as truncating once |
| Truncation.TruncateKeepsLastBrace | movie_service.py:333-338 | no longer prefix within the budget ends in `}`: the cut is at the last brace |
| Truncation.TruncationMayUnbalance | movie_service.py:330-338 | the docstring's "keeping JSON valid" does not hold: `"[{}]"` cut to 3 characters leaves `"[{}"` |
| Strings.LastIndexOf | movie_service.py:335 | `rfind`: the index found holds the character and nothing after it does; no index means the character does not occur |
| Strings.PyTake | movie_service.py:270 | `movies_data[:count]` is a prefix of length `min(count, len)` for a non-negative count, and drops `-count` elements from the end for a negative one |
| Posters.Kept | movie_service.py:283 | the filter `if movie.get('poster_path')` keeps, in order, exactly the entries with a non-empty poster path: an in-order subsequence made only of such entries, as long as their number |
| Posters.YearOf | movie_service.py:278 | `year` is the first `min(4, len)` characters of `release_date`, or `""` when the field is absent |
| Posters.ToPoster | movie_service.py:274-282 | a record exists exactly when the entry has an `id`; `poster_url` is the image base URL followed by the poster path; `title`, `summary`, `vote_average` and `genre_ids` default to "Unknown Title", "No summary available", 0 and `[]` |
| Posters.ShapePosters | movie_service.py:273-284 | the comprehension succeeds exactly when every entry with a poster has an `id`, and then gives one record per kept entry, in the order of the kept entries |
| Posters.ShapedPostersAreValid | movie_service.py:273-284 | every shaped record has a poster URL with a non-empty path, and there are no more records than input entries |
| Posters.ShapedPostersCameFrom | movie_service.py:273-284 | every shaped record is the record of some input entry that has a poster |
| Posters.ShapedCount | movie_service.py:273-284 | when every entry has an `id`, the number of records is the number of entries minus those without a poster |
| Preferences.FindFence | movie_service.py:200 | the search for "```json\n(.*?)\n```" with DOTALL finds the leftmost opening fence and the nearest closing fence after it; there is no match exactly when no opening fence is followed by a closing one |
| Preferences.FencedBody | movie_service.py:200-204 | `group(1)` is the text between the matched fences, and it never contains a closing fence |
| Preferences.AnalyzePreferences | movie_service.py:186-220 | the model receives the truncated prompt; with no reply, no fenced block or an unparsable block, the result is the fixed fallback record; otherwise it is the parsed block |
| Discover.BaseDiscoverParams | movie_service.py:228-233 | the first request starts from exactly the keys language, include_adult, page and vote_count.gte |
| Discover.FallbackParams | movie_service.py:256-263 | the fallback request carries exactly language en-US, include_adult false, vote_count.gte 50, vote_average.lte 3.5, sort_by "vote_average.asc" and the given page |
| Discover.PopularParams | movie_service.py:28-32 | the popular-list request carries exactly the given page, language en-US and include_adult false |
| Discover.ResultsOf | movie_service.py:251 | `.get('results', [])` is the list of results, or `[]` when the body has no `results` key |
| Preferences.Truthy | movie_service.py:236 | `if anti_preferences:` holds for an object exactly when it is not the empty object, and for any other parsed value exactly when Python's truthiness holds |
| Discover.GenresParam | movie_service.py:239 | the `with_genres` value is empty exactly when no genre was sampled, and otherwise starts with the decimal text of the first sampled id |
| Discover.FirstParams | movie_service.py:228-244 | with no record or a falsy one the first request is exactly the base parameters; with a truthy one it fails exactly when building the update fails, and otherwise carries the base keys plus the update keys, with the update's values and the base values for the keys the update does not set |
| Discover.ClampVote | movie_service.py:242 | `min(5.0, v)` is never above 5.0, equals `v` when `v` is not above 5.0, and equals 5.0 otherwise |
| Discover.GenresParamRoundTrip | movie_service.py:239 | splitting the `with_genres` value at the bar separator and parsing each piece gives back the sampled genre ids |
| Discover.SampleIsDistinct | movie_service.py:237 | a sample drawn from distinct genre ids consists of distinct members of the genre list |
| Discover.PrefsUpdate | movie_service.py:236-244 | building the update succeeds exactly when the record is an object with genres, min_year and max_year; it then holds the joined sample, the bounds `{min_year}-01-01` and `{max_year}-12-31`, a rating bound equal to `vote_average_lte` when that is at most 5.0, exactly 5.0 when it is above 5.0 or absent, and sort_by defaulting to "vote_average.asc" |
| Discover.FirstParamsKeepBase | movie_service.py:228-244 | the first request always carries en-US, no adult titles, a page in 1..5 and at least 50 votes; with an absent or empty record those are all it carries |
| Discover.FallbackPrefsQuery | movie_service.py:213-244 | the fallback record yields a query for both genres 35 and 27, joined by a bar in either order, years 1900-01-01 to 2024-12-31, rating at most 5.0 and the ascending-rating sort |
| Discover.GetWorstRatedMovies | movie_service.py:222-292 | the first request uses the base parameters updated from the record; a second request with the fallback parameters is made exactly when the first one answered with an empty list; any failure gives `[]`; otherwise the result is the shaped slice of the shuffled last answer, at most `count` records, each with a valid poster URL and each coming from that answer |
| Discover.CameFromShuffled | movie_service.py:269-270 | a record shaped from a slice of the shuffled list comes from an entry of the unshuffled list |
| Discover.GetRandomPosters | movie_service.py:24-64 | one popular-list request for the given page; a failed request, a kept entry without an id, and an empty shaped list are three distinct failures; success is a non-empty list of at most `count` records with valid poster URLs |
| PageSize.CardsPerRow | app.py:20-22 | 2 cards per row exactly when the width is below 768, else 4 |
| PageSize.RowsNeeded | app.py:24-25 | `ceil(height / 400)`: the fewest rows whose total height reaches the viewport height |
| PageSize.RoundUpToFive | app.py:30-31 | a multiple of five at or above the total and less than five above it |
| PageSize.MoviesNeeded | app.py:13-31 | the number of cards is a multiple of five within five of `(rows + 1) * cards_per_row`, with height 800 and width 1200 for missing headers |
| PageSize.AtLeastFive | app.py:24-31 | a non-negative viewport height always asks for at least five cards |
| PageSize.DefaultPageSize | app.py:17-31 | without headers the page asks for 15 cards |

## Left out

- HTTP requests, the OpenAI client, `raise_for_status` and request timeouts are external I/O. They are the `discover`, `popular` and `complete` parameters.
- `json.loads` and `json.dumps` are library calls. Parsing is the abstract `parseJson` parameter. The prompt text itself is a plain string parameter.
- `random.randint`, `random.sample` and `random.shuffle` are caller-supplied choices constrained by preconditions. The model does not reason about probabilities.
- GetWorstRatedMovies: `random.shuffle` reorders the list in place. The model treats it as a function returning a permutation, so in-place update is not captured.
- GetRandomPosters: the same applies to its shuffle.
- `get_movie_details` (movie_service.py:118-138) is left out. It is a loop of network calls.
- `analyze_taste` (movie_service.py:294-327) is left out. It is a language-model call whose only deterministic part is a constant fallback.
- The shadowed first `get_worst_rated_movies` (movie_service.py:66-116) is dead code and is left out.
- Logging is left out.
- JSON values of unexpected types are not modelled, because the fields are typed. Examples: a `null` title or vote, a string `vote_average_lte`, non-integer genre ids, or a year given as a number. Those would raise or format differently in Python.
- PrefsUpdate: `min_year` and `max_year` are strings, so only the string case of the f-string formatting is covered.
- Vote averages are exact reals, not Python floats.
- PageSize.RowsNeeded: the ceiling is exact integer division. `math.ceil(h / 400)` on Python floats agrees with it only while `h` fits a float exactly, below 2^53.
- The Flask routes, the session, the templates and the `int()` parsing of the viewport headers (app.py:17-18, 33-116) are left out. The model takes headers already parsed.
- config.py (environment and API-key check) and static/js/movie.js (browser UI) are left out.
