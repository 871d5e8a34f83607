/** `collect_country_music_data`: discover playlists, collect and extract the tracks
    of the first 20, deduplicate them by id, fetch their audio features in batches and
    join the two tables on id. */
module Pipeline {
  import opened Records
  import opened PyDict
  import Pagination
  import Discovery
  import Tracks
  import Features
  import Aggregation

  /** The answers the catalog service gives during one run: the featured-playlist page
      chain, search replies by query, the batch answers of the audio-feature call, and
      the item page chain of each playlist request. Item requests are told apart by
      their position k in the run (0 for the first playlist processed) as well as by
      the id asked, so a playlist processed twice may get different pages, or raise
      the second time. */
  datatype Catalog = Catalog(
    featured: seq<Fetch<Playlist>>,
    search: string -> SearchReply,
    playlistItems: (nat, string) -> seq<Fetch<Item>>,
    audioFeatures: seq<string> -> Result<seq<Option<FeatureRecord>>>)

  ghost predicate WellFormed(c: Catalog) {
    && Pagination.WellFormedChain(c.featured)
    && forall k: nat, id :: Pagination.WellFormedChain(c.playlistItems(k, id))
  }

  /** How a run ends: one of the three early returns of `None`, an exception leaving the
      run, or the merged table handed to the CSV sink under its file name. */
  datatype RunOutcome =
    | NoPlaylists
    | NoTracks
    | NoData
    | Crashed
    | Saved(table: seq<MergedRecord>, destination: string)

  /** Only this many playlists are processed. */
  const PlaylistLimit: nat := 20

  function Destination(country: string): string {
    "spotify_" + country + "_tracks.csv"
  }

  /** `s[:n]`. */
  function Take<T>(s: seq<T>, n: nat): (r: seq<T>)
    ensures |r| <= |s| && r == s[..|r|]
    ensures |s| <= n ==> r == s
    ensures |s| > n ==> |r| == n
  {
    if |s| <= n then s else s[..n]
  }

  /** The records the k-th playlist processed contributes, or `None` when fetching or
      extracting raised. */
  function TracksOf(k: nat, p: Playlist, c: Catalog): Option<seq<TrackRecord>>
    requires WellFormed(c)
  {
    match Pagination.Collected(c.playlistItems(k, p.id), Tracks.ItemsCap)
    case Err(_) => None
    case Ok(items) => Tracks.Extracted(items)
  }

  /** The records of the first n playlists of ps, in playlist order, or `None` on an
      exception. */
  function CollectPrefix(ps: seq<Playlist>, n: nat, c: Catalog): Option<seq<TrackRecord>>
    requires WellFormed(c) && n <= |ps|
  {
    if n == 0 then Some([])
    else
      match CollectPrefix(ps, n - 1, c)
      case None => None
      case Some(acc) =>
        match TracksOf(n - 1, ps[n - 1], c)
        case None => None
        case Some(rs) => Some(acc + rs)
  }

  /** The records of all the playlists ps. */
  function CollectTracks(ps: seq<Playlist>, c: Catalog): Option<seq<TrackRecord>>
    requires WellFormed(c)
  {
    CollectPrefix(ps, |ps|, c)
  }

  /** The records collected in a run, when discovery and collection did not raise. */
  function RunTracks(country: string, c: Catalog): Option<seq<TrackRecord>>
    requires WellFormed(c)
  {
    match Discovery.Discover(country, c.featured, c.search)
    case Err(_) => None
    case Ok(all) => CollectTracks(Take(all, PlaylistLimit), c)
  }

  /** Deduplication, feature lookup and join for a non-empty record list. */
  function Aggregate(country: string, tracks: seq<TrackRecord>, c: Catalog): RunOutcome {
    var unique := Aggregation.DedupTracks(tracks);
    match Features.Answers(c.audioFeatures, Features.Batches(unique.keys))
    case Err(_) => Crashed
    case Ok(fs) =>
      var features := Aggregation.PresentFeatures(fs);
      var table := Values(unique);
      if features != [] && table != [] then
        Saved(Aggregation.InnerJoin(table, features), Destination(country))
      else NoData
  }

  /** The outcome of a whole run. */
  function Run(country: string, c: Catalog): RunOutcome
    requires WellFormed(c)
  {
    match Discovery.Discover(country, c.featured, c.search)
    case Err(_) => Crashed
    case Ok(all) =>
      if all == [] then NoPlaylists
      else
        match CollectTracks(Take(all, PlaylistLimit), c)
        case None => Crashed
        case Some(tracks) => if tracks == [] then NoTracks else Aggregate(country, tracks, c)
  }

  /** An exception while collecting a prefix of the playlists ends the collection. */
  lemma {:induction false} CollectTracksStaysNone(ps: seq<Playlist>, c: Catalog, k: nat)
    requires WellFormed(c)
    requires k <= |ps| && CollectPrefix(ps, k, c).None?
    ensures CollectTracks(ps, c).None?
    decreases |ps| - k
  {
    if k < |ps| {
      CollectTracksStaysNone(ps, c, k + 1);
    }
  }

  /** One playlist that raises ends the collection of every prefix that holds it. */
  lemma {:induction false} RaisingPlaylistEndsCollection(ps: seq<Playlist>, n: nat, c: Catalog, k: nat)
    requires WellFormed(c) && k < n <= |ps|
    requires TracksOf(k, ps[k], c).None?
    ensures CollectPrefix(ps, n, c).None?
    decreases n
  {
    if k < n - 1 {
      RaisingPlaylistEndsCollection(ps, n - 1, c, k);
    }
  }

  /** A collection that raises stops at a playlist that raised, after the earlier
      playlists gave their records. */
  lemma {:induction false} CollectionRaisesAtPlaylist(ps: seq<Playlist>, n: nat, c: Catalog)
    requires WellFormed(c) && n <= |ps|
    requires CollectPrefix(ps, n, c).None?
    ensures exists k :: 0 <= k < n && CollectPrefix(ps, k, c).Some? && TracksOf(k, ps[k], c).None?
  {
    if CollectPrefix(ps, n - 1, c).None? {
      CollectionRaisesAtPlaylist(ps, n - 1, c);
      var k :| 0 <= k < n - 1 && CollectPrefix(ps, k, c).Some? && TracksOf(k, ps[k], c).None?;
      assert 0 <= k < n;
    } else {
      assert CollectPrefix(ps, n - 1, c).Some? && TracksOf(n - 1, ps[n - 1], c).None?;
    }
  }

  /** The discovery phase: featured playlists, then the search results appended. */
  method DiscoverPlaylists(country: string, c: Catalog) returns (r: Result<seq<Playlist>>)
    requires WellFormed(c)
    ensures r == Discovery.Discover(country, c.featured, c.search)
  {
    var featured := Discovery.GetFeaturedPlaylists(c.featured);
    if featured.Err? {
      return Err(featured.error);
    }
    var top, asked, reported, pauses := Discovery.GetCountryTopPlaylistsAsWritten(country, c.search);
    r := Ok(featured.value + top);
  }

  /** One iteration of the collection loop, the k-th: page through the playlist's
      items, then extract their records. */
  method CollectPlaylist(k: nat, playlist: Playlist, c: Catalog) returns (records: Option<seq<TrackRecord>>)
    requires WellFormed(c)
    ensures records == TracksOf(k, playlist, c)
  {
    var items := Tracks.GetTracksFromPlaylist(c.playlistItems(k, playlist.id));
    if items.Err? {
      return None;
    }
    records := Tracks.ExtractTrackData(items.value);
  }

  /** One step of the collection loop: the records so far extended by those of the
      i-th selected playlist, or `None` when that playlist raised. */
  method CollectNext(selected: seq<Playlist>, i: nat, allTracks: seq<TrackRecord>, c: Catalog)
    returns (next: Option<seq<TrackRecord>>)
    requires WellFormed(c) && i < |selected|
    requires CollectPrefix(selected, i, c) == Some(allTracks)
    ensures next == CollectPrefix(selected, i + 1, c)
  {
    var records := CollectPlaylist(i, selected[i], c);
    if records.None? {
      return None;
    }
    next := Some(allTracks + records.value);
  }

  /** The collection loop over the selected playlists; `visited` are the playlists whose
      items were requested, and an exception ends the loop at the playlist that raised. */
  method CollectSelected(selected: seq<Playlist>, c: Catalog)
    returns (tracks: Option<seq<TrackRecord>>, visited: seq<Playlist>)
    requires WellFormed(c)
    ensures tracks == CollectTracks(selected, c)
    ensures |visited| <= |selected| && visited == selected[..|visited|]
    ensures tracks.Some? ==> visited == selected
    ensures tracks.None? ==> 0 < |visited| && CollectPrefix(selected, |visited| - 1, c).Some? && CollectPrefix(selected, |visited|, c).None?
  {
    visited := [];
    var allTracks: seq<TrackRecord> := [];
    var i := 0;
    var failed := false;
    while i < |selected| && !failed
      invariant i <= |selected|
      invariant visited == selected[..i]
      invariant !failed ==> CollectPrefix(selected, i, c) == Some(allTracks)
      invariant failed ==> 0 < i && CollectPrefix(selected, i - 1, c).Some? && CollectPrefix(selected, i, c).None?
    {
      var next := CollectNext(selected, i, allTracks, c);
      if next.None? {
        failed := true;
      } else {
        allTracks := next.value;
      }
      i := i + 1;
      visited := selected[..i];
    }
    if failed {
      CollectTracksStaysNone(selected, c, i);
      return None, visited;
    }
    assert selected[..i] == selected;
    tracks := Some(allTracks);
  }

  /** Deduplication, the batched feature lookup, and the join. */
  method AggregateTracks(country: string, tracks: seq<TrackRecord>, c: Catalog)
    returns (outcome: RunOutcome)
    ensures outcome == Aggregate(country, tracks, c)
  {
    var unique := Aggregation.DedupTracks(tracks);
    var features, sent := Features.GetAudioFeaturesBatch(unique.keys, c.audioFeatures);
    if features.Err? {
      return Crashed;
    }
    var present := Aggregation.PresentFeatures(features.value);
    var tracksTable := Values(unique);
    if present != [] && tracksTable != [] {
      outcome := Saved(Aggregation.InnerJoin(tracksTable, present), Destination(country));
    } else {
      outcome := NoData;
    }
  }

  /** `collect_country_music_data`; `visited` are the playlists whose items were requested. */
  method CollectCountryMusicData(country: string, c: Catalog)
    returns (outcome: RunOutcome, visited: seq<Playlist>)
    requires WellFormed(c)
    ensures outcome == Run(country, c)
    ensures |visited| <= PlaylistLimit
    ensures Discovery.Discover(country, c.featured, c.search).Ok? ==>
      var selected := Take(Discovery.Discover(country, c.featured, c.search).value, PlaylistLimit);
      |visited| <= |selected| && visited == selected[..|visited|]
    ensures outcome != Crashed ==> Discovery.Discover(country, c.featured, c.search).Ok?
    ensures outcome.NoPlaylists? ==> visited == []
    ensures outcome != Crashed && outcome != NoPlaylists ==>
      visited == Take(Discovery.Discover(country, c.featured, c.search).value, PlaylistLimit)
  {
    visited := [];
    var all := DiscoverPlaylists(country, c);
    if all.Err? {
      return Crashed, visited;
    }
    if all.value == [] {
      return NoPlaylists, visited;
    }
    var selected := Take(all.value, PlaylistLimit);
    var tracks;
    tracks, visited := CollectSelected(selected, c);
    if tracks.None? {
      return Crashed, visited;
    }
    if tracks.value == [] {
      return NoTracks, visited;
    }
    outcome := AggregateTracks(country, tracks.value, c);
    assert Aggregate(country, tracks.value, c) != NoPlaylists;
  }

  /** A run ends with "no playlists" exactly when discovery succeeds with nothing. */
  lemma RunNoPlaylists(country: string, c: Catalog)
    requires WellFormed(c)
    ensures Run(country, c) == NoPlaylists <==> Discovery.Discover(country, c.featured, c.search) == Ok([])
  {
    match Discovery.Discover(country, c.featured, c.search)
    case Err(_) =>
    case Ok(all) =>
      if all != [] {
        match CollectTracks(Take(all, PlaylistLimit), c)
        case None =>
        case Some(tracks) =>
          if tracks != [] {
            assert Aggregate(country, tracks, c) != NoPlaylists;
          }
      }
  }

  /** A run ends with "no tracks" exactly when playlists were found and the first 20
      yielded no record. */
  lemma RunNoTracks(country: string, c: Catalog)
    requires WellFormed(c)
    ensures Run(country, c) == NoTracks <==>
      Discovery.Discover(country, c.featured, c.search).Ok? &&
      Discovery.Discover(country, c.featured, c.search).value != [] &&
      RunTracks(country, c) == Some([])
  {
    match Discovery.Discover(country, c.featured, c.search)
    case Err(_) =>
    case Ok(all) =>
      if all != [] {
        match CollectTracks(Take(all, PlaylistLimit), c)
        case None =>
        case Some(tracks) =>
          if tracks != [] {
            assert Aggregate(country, tracks, c) != NoTracks;
          }
      }
  }

  /** A run crashes exactly when the featured listing raises something other than the
      client library's exception, when one of the first 20 playlists raises while its
      items are fetched or extracted, or when a feature batch raises. */
  lemma RunCrashed(country: string, c: Catalog)
    requires WellFormed(c)
    ensures Run(country, c) == Crashed <==>
      || Pagination.Collected(c.featured, Discovery.FeaturedCap) == Err(OtherError)
      || (&& Discovery.Discover(country, c.featured, c.search).Ok?
          && var selected := Take(Discovery.Discover(country, c.featured, c.search).value, PlaylistLimit);
             exists k :: 0 <= k < |selected| && TracksOf(k, selected[k], c).None?)
      || (&& RunTracks(country, c).Some? && RunTracks(country, c).value != []
          && var ts := RunTracks(country, c).value;
             Features.Answers(c.audioFeatures, Features.Batches(Aggregation.DedupTracks(ts).keys)).Err?)
  {
    match Discovery.Discover(country, c.featured, c.search)
    case Err(_) =>
    case Ok(all) =>
      var selected := Take(all, PlaylistLimit);
      if CollectTracks(selected, c).None? {
        CollectionRaisesAtPlaylist(selected, |selected|, c);
      }
      if k :| 0 <= k < |selected| && TracksOf(k, selected[k], c).None? {
        RaisingPlaylistEndsCollection(selected, |selected|, c, k);
      }
      if all == [] {
        assert selected == [];
      }
  }

  /** The requested ids are the distinct non-None ids of the collected records. */
  lemma RequestedIds(tracks: seq<TrackRecord>)
    ensures Distinct(Aggregation.DedupTracks(tracks).keys)
    ensures var ids := Aggregation.DedupTracks(tracks).keys;
      forall k :: k in ids <==> exists t :: t in tracks && t.id == Some(k)
  {
    Aggregation.DedupTracksSpec(tracks);
  }

  /** The requested ids come in the order in which their first record was collected. */
  lemma RequestedOrder(tracks: seq<TrackRecord>)
    ensures var ids := Aggregation.DedupTracks(tracks).keys;
      forall a :: 0 <= a < |ids| ==> Occurs(tracks, Aggregation.TrackKey, ids[a])
    ensures var ids := Aggregation.DedupTracks(tracks).keys;
      forall a, b :: 0 <= a < b < |ids| ==>
        FirstIndex(tracks, Aggregation.TrackKey, ids[a]) < FirstIndex(tracks, Aggregation.TrackKey, ids[b])
  {
    assert Aggregation.DedupTracks(tracks) == Comprehension(tracks, Aggregation.TrackKey);
    ComprehensionFirstOrder(tracks, Aggregation.TrackKey);
  }

  /** A run ends with "no data" exactly when records were collected and the feature
      lookup succeeded, but either no feature entry is present or no record has an id. */
  lemma RunNoData(country: string, c: Catalog)
    requires WellFormed(c)
    ensures Run(country, c) == NoData <==>
      && RunTracks(country, c).Some? && RunTracks(country, c).value != []
      && var ts := RunTracks(country, c).value;
         var answers := Features.Answers(c.audioFeatures, Features.Batches(Aggregation.DedupTracks(ts).keys));
         && answers.Ok?
         && (Aggregation.PresentFeatures(answers.value) == [] || forall t :: t in ts ==> t.id.None?)
  {
    match Discovery.Discover(country, c.featured, c.search)
    case Err(_) =>
    case Ok(all) =>
      match CollectTracks(Take(all, PlaylistLimit), c)
      case None =>
      case Some(tracks) =>
        if all == [] {
          assert Take(all, PlaylistLimit) == [];
        }
        Aggregation.DedupEmpty(tracks);
  }

  /** Every saved row joins a collected record with a non-None feature entry of the
      same id, every deduplicated record with such an entry has its row, and there are
      no more rows than non-None feature entries, nor (when the
      service returns each id once) than distinct track ids. */
  lemma SavedRows(country: string, c: Catalog)
    requires WellFormed(c)
    ensures Run(country, c).Saved? ==> RunTracks(country, c).Some?
    ensures Run(country, c).Saved? ==>
      var ts := RunTracks(country, c).value;
      var answers := Features.Answers(c.audioFeatures, Features.Batches(Aggregation.DedupTracks(ts).keys));
      && answers.Ok?
      && (forall m :: m in Run(country, c).table ==>
            m.track in ts && Aggregation.SameId(m.track, m.features) && Some(m.features) in answers.value)
      && (forall t, f ::
            t in Values(Aggregation.DedupTracks(ts)) && Some(f) in answers.value && Aggregation.SameId(t, f)
            ==> MergedRecord(t, f) in Run(country, c).table)
      && |Run(country, c).table| <= |Aggregation.PresentFeatures(answers.value)|
      && (Aggregation.DistinctFeatureIds(Aggregation.PresentFeatures(answers.value)) ==>
            |Run(country, c).table| <= |Aggregation.DedupTracks(ts).keys|)
    ensures Run(country, c).Saved? ==> Run(country, c).destination == Destination(country)
  {
    if Run(country, c).Saved? {
      var ts := RunTracks(country, c).value;
      var unique := Aggregation.DedupTracks(ts);
      var answers := Features.Answers(c.audioFeatures, Features.Batches(unique.keys));
      var fs := Aggregation.PresentFeatures(answers.value);
      var table := Values(unique);
      Aggregation.DedupTableIds(ts);
      assert Run(country, c).table == Aggregation.InnerJoin(table, fs);
      Aggregation.JoinBoundByFeatures(table, fs);
      if Aggregation.DistinctFeatureIds(fs) {
        Aggregation.JoinBoundByTracks(table, fs);
      }
    }
  }

  /** Unlike an abort on an empty join, a merge with no common id is still saved. */
  lemma EmptyMergeIsSaved(country: string, tracks: seq<TrackRecord>, c: Catalog)
    requires var ids := Aggregation.DedupTracks(tracks).keys;
      var answers := Features.Answers(c.audioFeatures, Features.Batches(ids));
      && ids != []
      && answers.Ok?
      && Aggregation.PresentFeatures(answers.value) != []
      && forall t, f :: t in tracks && Some(f) in answers.value ==> t.id != Some(f.id)
    ensures Aggregate(country, tracks, c) == Saved([], Destination(country))
  {
    var unique := Aggregation.DedupTracks(tracks);
    var answers := Features.Answers(c.audioFeatures, Features.Batches(unique.keys));
    var fs := Aggregation.PresentFeatures(answers.value);
    var table := Values(unique);
    Aggregation.DedupTableIds(tracks);
    assert table != [] by {
      assert |table| == |unique.keys|;
    }
    Aggregation.JoinNoCommonId(table, fs);
  }
}
