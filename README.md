# HarmonyPredict data collection, modelled in Dafny

HarmonyPredict collects track metadata and audio features for the music popular in one
country from the Spotify catalog and saves them as one table. This project models the
collection pipeline of `Scripts/data_collection.py` and proves properties of it. The
pipeline runs in five steps:

- **Discovery.** It finds playlists in two ways: the featured listing for the country,
  paged until 100 playlists are held, and four keyword searches. The search results are
  deduplicated by playlist id.
- **Collection.** It pages through the items of the first 20 playlists, and stops
  asking for a playlist's pages once 200 items are held.
- **Extraction.** It turns every item that still has a track into a fixed record whose
  artist is the first artist listed.
- **Deduplication and lookup.** It deduplicates the records by track id. It then asks
  for their audio features in batches of at most 100 ids.
- **Join.** It drops absent feature entries and inner-joins the two tables on `id`.

The catalog service is not modelled. Instead, every kind of call becomes the answers it
would give, supplied as plain data:

- A paginated listing is the chain of its pages (`Records.Fetch`), each page being the
  answer to the next request.
- A search maps a query to its reply.
- A batch lookup maps a list of ids to its answer.
- An item listing is a page chain chosen by the playlist id and by the position of the
  playlist in the run. A playlist processed twice may therefore get different pages the
  second time, or raise.

Exceptions are values (`Records.Result`). A `SpotifyException` is `ServiceError`;
anything else is `OtherError`. Python dictionaries are modelled in `PyDict`: keys keep
the order of first insertion and a later assignment replaces the value. Both
deduplication steps are dictionary comprehensions over that model.

Modules and files:

| file | module | models |
|---|---|---|
| records.dfy | `Records` | the records, the service answers, `Option`, `Result` |
| pydict.dfy | `PyDict` | insertion-ordered dicts and `{key(x): x for x in xs}` |
| pagination.dfy | `Pagination` | the capped "next page" loop shared by two functions |
| discovery.dfy | `Discovery` | `get_featured_playlists`, `get_country_top_playlists`, the concatenation |
| tracks.dfy | `Tracks` | `get_tracks_from_playlist`, `extract_track_data` |
| features.dfy | `Features` | `get_audio_features_batch` |
| aggregation.dfy | `Aggregation` | track dedup, the None-feature filter, the inner join |
| pipeline.dfy | `Pipeline` | `collect_country_music_data` |

A run ends in one of five ways (`Pipeline.RunOutcome`). Three are the early `None`
returns:

- `NoPlaylists`: no playlists were found.
- `NoTracks`: no tracks were collected.
- `NoData`: an empty table after filtering.

The other two:

- `Crashed`: an exception left the run.
- `Saved`: the merged table and the CSV file name it is written to.

Two behaviours of the code are worth stating outright:

- The featured and searched playlists are concatenated without deduplication (line 132).
  A playlist that is both featured and found by search appears twice in the
  concatenated list (`Discovery.DiscoverKeepsDuplicates`). It is processed twice when
  both copies fall within the first 20.
- The emptiness test at line 165 is on the two input tables, so a merge with no common
  id is still written to the CSV file (`Pipeline.EmptyMergeIsSaved`).
- The playlist loop at lines 141-146 has no handler. One of the first 20 playlists whose
  items raise, or that holds a track without an artist, ends the whole run
  (`Pipeline.RaisingPlaylistEndsCollection`, `Pipeline.RunCrashed`).

## Model

| member | source | states |
|---|---|---|
| Pagination.CallsFrom | Scripts/data_collection.py:73-75 | the number of requests is the point where the loop stops: the first request is always made, and another follows only while the last page has a next cursor and fewer than `cap` items are held |
| Pagination.StopsAtUnique | Scripts/data_collection.py:73-75 | the stopping point is unique |
| Pagination.CollectedAt | Scripts/data_collection.py:69-77 | whatever number of requests meets the stopping rule determines the result: the exception of the request that raised, or every item of every fetched page |
| Pagination.OverrunBound | Scripts/data_collection.py:73-75 | when no page holds more than `limit` items, a successful run of the loop holds fewer than `cap + limit` items, i.e. it passes the cap by less than one page |
| Pagination.FetchPages | Scripts/data_collection.py:67-77 | the loop makes exactly the requests the stopping rule allows; it returns the exception of the last request if that raised, otherwise all items of the pages fetched, in order |
| Discovery.GetFeaturedPlaylists | Scripts/data_collection.py:15-32 | the featured listing is paged with cap 100; a `SpotifyException` yields the empty list, any other exception leaves the function, a success passes the items through |
| Discovery.Failed | Scripts/data_collection.py:52-54 | a query is reported exactly when it was asked and its search raised; there are no more reports than queries, and no query is reported twice when the queries are distinct |
| Discovery.Queries | Scripts/data_collection.py:38-43 | the query list holds four queries, tried in that order |
| Discovery.QueriesDistinct | Scripts/data_collection.py:38-43 | the four search queries are pairwise distinct |
| Discovery.GatheredContains | Scripts/data_collection.py:46-54 | the items of every query that answered are in the gathered list, whatever the later queries do |
| Discovery.TopPlaylistsCovers | Scripts/data_collection.py:45-62 | every playlist a search answered has its id among the returned playlists |
| Discovery.UniqueIds | Scripts/data_collection.py:61-62 | search deduplication keeps each playlist id exactly once |
| Discovery.UniqueCovers | Scripts/data_collection.py:61-62 | it keeps only playlists that were found, and every id found is kept |
| Discovery.UniqueLastWins | Scripts/data_collection.py:61 | for a repeated id, the playlist kept is the last one found with it |
| Discovery.UniqueFirstOrder | Scripts/data_collection.py:61-62 | playlists are ordered by the first occurrence of their id |
| Discovery.GetCountryTopPlaylistsAsWritten | Scripts/data_collection.py:34-62 | as written: the four queries are asked in order, each one is reported as an error, no pause is taken, and the result is the deduplicated search results, or empty when no query contributed |
| Discovery.GetCountryTopPlaylists | Scripts/data_collection.py:34-62 | with the pause spelled correctly: the same playlists; only the queries whose search raised are reported, and each other query is followed by one pause |
| Discovery.FailedMissesAnswered | Scripts/data_collection.py:51-53 | whenever some query does not raise, the as-written report (every query) differs from the intended one |
| Discovery.DiscoverKeepsDuplicates | Scripts/data_collection.py:132 | the featured and searched lists are concatenated as they are, so a playlist in both appears twice |
| PyDict.Assign | Scripts/data_collection.py:153 | a dict assignment stores the value under the key, adds only that key, leaves other entries alone, and keeps the dict well formed; a new key goes to the end of the key order, and replacing a value leaves the order as it was |
| PyDict.Comprehension | Scripts/data_collection.py:153 | the comprehension builds a well-formed dict: keys listed once, exactly the keys with entries |
| PyDict.ComprehensionKeys | Scripts/data_collection.py:153 | the keys are exactly the non-None keys met in the input, and each value is an input element that carries its key |
| PyDict.ComprehensionLastWins | Scripts/data_collection.py:153 | the value under a key is the last element that carries it |
| PyDict.ComprehensionFirstOrder | Scripts/data_collection.py:61 | keys are listed in the order of their first occurrence in the input |
| Tracks.GetTracksFromPlaylist | Scripts/data_collection.py:67-77 | a playlist's items are paged with cap 200, and an exception from any page request leaves the function |
| Tracks.PresentTracksAppend | Scripts/data_collection.py:83-85 | skipping items without a track distributes over concatenation, so the kept tracks keep their order |
| Tracks.PresentTracksMembers | Scripts/data_collection.py:83-85 | exactly the tracks of items that have one are kept, and never more than there are items |
| Tracks.Extracted | Scripts/data_collection.py:79-103 | extraction fails exactly when a present track lists no artist; otherwise it gives one record per present track, in item order, whose artist is the first one listed |
| Tracks.ExtractTrackData | Scripts/data_collection.py:79-103 | the item-by-item loop computes exactly `Extracted` |
| Tracks.ExtractedStaysNone | Scripts/data_collection.py:93 | once a prefix of the items fails to extract, so does the whole list |
| Features.BatchesFlatten | Scripts/data_collection.py:111-112 | the batches put back together give the id list, in order |
| Features.BatchesShape | Scripts/data_collection.py:111-112 | n ids make ceil(n / 100) batches of 1 to 100 ids, batch k being ids 100k up to 100k + 100 |
| Features.HundredFifty | Scripts/data_collection.py:111-112 | 150 ids make two batch calls, of 100 and 50 ids |
| Features.RequestedSpec | Scripts/data_collection.py:111-114 | the batches sent are a prefix of all batches; all but the last were answered; the lookup fails exactly when the last one sent raised, with its exception; a successful lookup sent every batch |
| Features.AnswersLength | Scripts/data_collection.py:113-114 | when the service gives one entry per id, the concatenated answers line up with the ids |
| Features.GetAudioFeaturesBatch | Scripts/data_collection.py:105-118 | the loop returns the concatenated batch answers, or the first exception, and sends exactly the batches `Requested` describes |
| Aggregation.DedupTracksSpec | Scripts/data_collection.py:153 | the deduplicated ids are exactly the non-None ids of the records; each value carries its key; the last record with an id wins |
| Aggregation.DedupTableIds | Scripts/data_collection.py:153-154 | the track table holds one record per key, in key order, with pairwise distinct non-None ids, each one a collected record |
| Aggregation.DedupEmpty | Scripts/data_collection.py:153-154 | the track table is empty exactly when no collected record has an id |
| Aggregation.PresentFeatures | Scripts/data_collection.py:162 | exactly the non-None feature entries are kept |
| Aggregation.Matches | Scripts/data_collection.py:166 | the rows of one track pair it with every feature record of the same id |
| Aggregation.InnerJoin | Scripts/data_collection.py:166 | a row is in the join exactly when it pairs a track and a feature record with the same id |
| Aggregation.JoinBoundByFeatures | Scripts/data_collection.py:166 | with distinct track ids, the join has at most one row per feature record |
| Aggregation.JoinBoundByTracks | Scripts/data_collection.py:166 | with distinct feature ids, the join has at most one row per track |
| Aggregation.JoinNoCommonId | Scripts/data_collection.py:166 | two tables with no id in common join to nothing |
| Pipeline.Take | Scripts/data_collection.py:141 | the selection is a prefix of the list: the whole list when it has at most 20 playlists, otherwise exactly the first 20 |
| Pipeline.CollectPlaylist | Scripts/data_collection.py:143-144 | the k-th playlist processed gives the extracted records of the item pages the service answers for that request, or an exception |
| Pipeline.CollectNext | Scripts/data_collection.py:143-145 | one iteration of the playlist loop extends the records of the playlists before it by those of the next one, or raises |
| Pipeline.CollectSelected | Scripts/data_collection.py:141-146 | the loop collects the records of the selected playlists in order; it requests a prefix of them, all of them on success; on an exception every playlist before the last one requested gave its records and the last one raised |
| Pipeline.DiscoverPlaylists | Scripts/data_collection.py:124-132 | discovery is the featured playlists followed by the search results, the search run as written |
| Pipeline.AggregateTracks | Scripts/data_collection.py:152-177 | dedup, batched lookup of the unique ids, filtering and join give the outcome `Aggregate` describes |
| Pipeline.CollectCountryMusicData | Scripts/data_collection.py:121-177 | the run ends as `Run` describes; items are requested for at most 20 playlists, always a prefix of the discovered list, all of the first 20 unless the run crashed or found nothing |
| Pipeline.RunNoPlaylists | Scripts/data_collection.py:134-136 | a run ends with "no playlists" exactly when discovery succeeds and finds nothing |
| Pipeline.RunNoTracks | Scripts/data_collection.py:148-150 | a run ends with "no tracks" exactly when playlists were found and the first 20 gave no record |
| Pipeline.RequestedIds | Scripts/data_collection.py:153-159 | the ids sent for features are pairwise distinct and are exactly the non-None ids of the collected records |
| Pipeline.RequestedOrder | Scripts/data_collection.py:153-159 | the ids are sent in the order in which each first occurs among the collected records |
| Pipeline.RunNoData | Scripts/data_collection.py:152-177 | a run ends with "no data" exactly when some records were collected, the feature lookup succeeded, and either no feature entry is present or no record has an id |
| Pipeline.SavedRows | Scripts/data_collection.py:165-174 | every saved row pairs a collected record with a non-None feature entry of its id; every deduplicated record with such an entry has its row; there are no more rows than feature entries, nor (with distinct feature ids) than unique tracks; the file is `spotify_<country>_tracks.csv` |
| Pipeline.EmptyMergeIsSaved | Scripts/data_collection.py:165-174 | when both tables are non-empty but share no id, the empty merge is still saved |
| Pipeline.CollectTracksStaysNone | Scripts/data_collection.py:143-144 | an exception while collecting one playlist ends the whole collection |
| Pipeline.RaisingPlaylistEndsCollection | Scripts/data_collection.py:141-145 | a playlist that raises makes the collection of every prefix holding it raise |
| Pipeline.CollectionRaisesAtPlaylist | Scripts/data_collection.py:141-145 | a collection that raises stops at a playlist that raised, all playlists before it having given their records |
| Pipeline.RunCrashed | Scripts/data_collection.py:121-177 | a run crashes exactly when the featured listing raises an exception other than the client library's, when one of the first 20 playlists raises, or when a feature batch raises |

## Left out

- The client setup in `spotify_auth.py` (credentials, the `spotipy` client) is not part of
  this model. The service calls become the answer data described above.
- Pauses (`time.sleep`) and log output (`print`) are not modelled. The one exception is
  `get_country_top_playlists`, where the model counts the pauses because the misspelled
  pause changes control flow.
- The page sizes requested (`limit=50`, `limit=10`, `limit=100`) belong to the service:
  the model accepts pages of any size.
- A listing whose next cursor never ends is not modelled: a page chain is finite. With
  empty pages and an endless cursor, the source would loop forever.
- Malformed service data is not modelled: a `None` playlist entry, a missing dictionary
  key, or a playlist without an `id`. Only these could reach the outer handler of
  `get_country_top_playlists` (lines 63-65), so that handler is not modelled. Every
  playlist and track is a well-formed record, and the one missing-data failure modelled
  is a track with no artist.
- pandas is not modelled: the DataFrame layout, the `_x`/`_y` suffixes on columns both
  tables carry, and the dtypes. A merged row is the pair of a track record and a feature
  record. Row order follows the track table, and within one track the feature order;
  this is how `pd.merge` orders an inner join on a unique left key.
- Writing the CSV file is a sink: `Saved` carries the table and the file name.
- The contents of an audio-feature record are opaque descriptors; only its `id` matters.
- `load_dotenv`, `TARGET_COUNTRY` and the `__main__` block are left out.

## Findings

| source | as written | input that shows it | evidently intended | confidence | as-written member | corrected member |
|---|---|---|---|---|---|---|
| Scripts/data_collection.py:51 | the pause after each search is spelled `time.slelep(1)`; it raises `AttributeError` inside the per-query `try`, so the handler reports every query as an error and no pause is ever taken | any country whose first search answers normally, e.g. a reply with playlist items for "top US": that query is reported as an error and the next query starts at once | `time.sleep(1)`: only a query whose search raised is reported, and each other query is followed by a one-second pause | high; not executed | Discovery.GetCountryTopPlaylistsAsWritten | Discovery.GetCountryTopPlaylists |

The playlists returned are the same in both versions: the misspelled call raises only
after the reply's items were appended. `Discovery.FailedMissesAnswered` proves the
as-written report differs from the intended one whenever some query answers. The
pipeline calls the version as written; with the same playlists, the corrected version
would give the same run.
