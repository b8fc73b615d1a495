# Wikiguessr game logic in Dafny

Wikiguessr is a small Flask web game (`app.py`). Each round shows the first
sentence of a Wikipedia article about a random place on land, and players
guess where that place is. This project models the sequential logic of that
app and proves properties about it:

- **First-sentence extraction** (module `Text`). `get_first_sentence` keeps
  the part of an article's plain-text introduction before the first `". "`,
  adds `"."` back, and returns the sentinel
  "Could not retrieve the first sentence for this location." when the lookup
  fails or the extract is empty. The HTTP request and the JSON parsing become
  one `Option<string>`: `None` for any exception, `Some("")` for a page with
  no `extract`. Python's `s.split('. ')[0]` is `FirstPiece` and Python's
  `p in s` is `Contains`. `Contains` is proved equal to "p occurs at some
  index".
- **Challenge generation** (module `Challenges`). This covers the land
  sampler `generate_random_land_location`, the disambiguation/list filter,
  the retry loop of `create_new_challenge` and the five rounds `create_game`
  builds. Both retry loops in the source are `while True` loops over random
  and network outcomes. Here they read a finite sequence of those outcomes
  in order (sampled location plus resolved title, or the random draws). If
  the sequence runs out first the model answers `None`, where the source
  would keep retrying. The summary fetcher is a parameter
  `fetch: string -> string`. `SummaryFetcher` builds the fetcher the source
  uses from an extract lookup. `HasTitle` is the definition of Python's
  `if title` (a title that is neither `None` nor empty), used by `Accepted`.
- **Leaderboard order** (module `Leaderboard`). This is
  `sorted(scores, key=score, reverse=True)`. Python's sort is stable, also
  with `reverse=True`. So the model is a stable insertion sort, proved to be
  a permutation, highest score first, and to keep entries with equal scores
  in submission order.
- **The game store** (module `GameStore`). The module-level `GAMES`
  dictionary is a class `Store` with a `map` field. `create_game` and
  `submit_score` update the map. `play_game`, `show_results` and
  `get_game_data` read it. Every route answers "not found" for an unknown
  id. The invariant `Valid()` says every stored game has five rounds whose
  sentences passed the filter. Every method that changes the store keeps
  it.

One consequence of the source as written, stated by `FirstSentenceCases`: an
extract without `". "` comes back whole with a `"."` appended. So a
one-sentence introduction that already ends in `"."` comes back ending in
`".."`.

## Model

| member | source | states |
|---|---|---|
| `Text.Contains` | app.py:84 | Python's substring test holds exactly when the pattern occurs at some index of the text |
| `Text.FirstPiece` | app.py:70 | `split('. ')[0]` is a prefix of the extract with no `". "` starting inside it, and it is either the whole extract or followed by `". "` |
| `Text.FirstPieceWhole` | app.py:70 | the first piece is the whole extract exactly when the extract contains no `". "` |
| `Text.FirstSentence` | app.py:66-73 | every result, sentinel included, is non-empty, ends with `'.'` and contains no `". "` |
| `Text.NoSepBeforePeriod` | app.py:70 | adding `"."` after the first piece cannot create a `". "` |
| `Text.SentinelHasNoSep` | app.py:73 | the sentinel sentence contains no `". "` |
| `Text.FirstSentenceCases` | app.py:67-73 | a failed lookup or an empty extract gives exactly the sentinel; otherwise the result is the extract up to the index of its first `". "` (no earlier occurrence, an occurrence right there unless the cut is at the end) followed by `"."`, and the whole extract plus `"."` exactly when it has no `". "` |
| `Challenges.GenerateRandomLandLocation` | app.py:25-30 | with no land geometry the result is the Los Angeles fallback; otherwise it is the first draw on land, as (lat, lon) from a (lon, lat) draw, it lies in range, and there is no result exactly when no draw is on land |
| `Challenges.SummaryFetcher` | app.py:82 | the fetcher built from an extract lookup returns, for every title, a non-empty string ending in `'.'` with no `". "` in it |
| `Challenges.SummaryChallenge` | app.py:80-85 | with that fetcher, a challenge's clue is the first sentence of its title's extract, non-empty, ending in `'.'` and free of `". "` |
| `Challenges.Acceptable` | app.py:84 | a sentence passes the filter exactly when neither "may refer to" nor "is a list of" occurs anywhere in it |
| `Challenges.CreateNewChallenge` | app.py:76-85 | a returned challenge comes from the first attempt from the start position on that has a non-empty title whose fetched sentence passes the filter; its sentence is the fetcher's output for that title and its location is the one sampled in that attempt; every attempt skipped before it was rejected |
| `Challenges.PickStep` | app.py:98 | one more accepted run of the retry loop extends the rounds built so far by the challenge of the attempt it ended on, and keeps them the first accepted attempts in order |
| `Challenges.CreateRounds` | app.py:98 | at most five attempts are picked, and five rounds exist exactly when the stream holds at least five accepted attempts; the rounds are the challenges of the first five accepted attempts, in stream order, each passing the filter |
| `Leaderboard.Insert` | app.py:120 | inserting an entry adds exactly that entry to the multiset of scores |
| `Leaderboard.SortByScore` | app.py:120 | the leaderboard is a permutation of the submitted scores |
| `Leaderboard.InsertNonIncreasing` | app.py:120 | inserting into a highest-first list keeps it highest-first |
| `Leaderboard.SortByScoreNonIncreasing` | app.py:120 | the leaderboard lists scores from highest to lowest |
| `Leaderboard.InsertStable` | app.py:120 | inserting keeps the relative order of entries with the same score, the new entry first among its ties |
| `Leaderboard.SortByScoreStable` | app.py:120 | for every score value, the entries with that score appear in the leaderboard in the order they were submitted |
| `GameStore.Store.constructor` | app.py:12 | the store starts empty and valid |
| `GameStore.Store.CreateGame` | app.py:94-101 | at most five attempts are picked, and a game is created exactly when the stream holds at least five accepted attempts; the picked attempts are accepted, in increasing order, and no acceptable attempt before the last pick (before the end of the stream on failure) was skipped; on success the id maps to the challenges of those five attempts with no scores and every other game is unchanged; otherwise the store is unchanged; validity is kept |
| `GameStore.Store.SubmitScore` | app.py:134-143 | for a known id exactly one entry is appended to that game's scores, with name `"Anonymous"` and score `0` when missing, and the rounds and all other games are unchanged; an unknown id is not found and changes nothing |
| `GameStore.Store.PlayGame` | app.py:106-110 | the game page exists exactly when the id is stored |
| `GameStore.Store.ShowResults` | app.py:113-122 | not found exactly for an unknown id; otherwise a permutation of the game's scores, highest first, with ties in submission order |
| `GameStore.Store.GetGameData` | app.py:126-131 | not found exactly for an unknown id; otherwise the game's five rounds, without its scores, each passing the filter |

## Left out

- HTTP requests to the Wikipedia API and JSON parsing (`get_closest_wikipedia_article`, the request part of `get_first_sentence`): network I/O. They are abstracted as an optional title per attempt and an optional extract per lookup.
- Challenges.CreateNewChallenge: the source's `while True` has no bound and may never return. The model reads a finite stream of attempt outcomes and returns `None` when the stream runs out, so only partial correctness is stated. The start position `from` is how one stream serves all five runs.
- Challenges.GenerateRandomLandLocation: the same finite-stream treatment of `while True` over `random.uniform`. Polygon containment from geopandas/shapely is an abstract predicate. An empty land geometry is treated like a missing one, since both are falsy.
- Challenges.CreateRounds: the sentence fetcher is a deterministic function of the title, so two lookups of one title give the same sentence. Live Wikipedia answers could differ between requests.
- Floating-point coordinates are modelled as reals. `random.uniform`'s distribution is not modelled.
- GameStore.Store.CreateGame: the game id is supplied by the caller instead of being the first eight characters of a random UUID. An id already in use is overwritten, as the dictionary assignment does. Freshness of ids is not modelled.
- GameStore.Store.SubmitScore: the submitted `score` is modelled as an integer. The source stores whatever JSON value the client sent. The request body is given as optional `name` and `score` fields, and a request without a JSON body is not modelled.
- Flask routing, `render_template`, `redirect`, `jsonify`, HTTP status codes, the home page, `print` logging, shapefile loading and the `__main__` runner: web glue and I/O. Each "not found" answer is the `None`/`false` result of the corresponding method.
- Concurrent requests on the shared `GAMES` dictionary are not modelled. Each method runs alone.
