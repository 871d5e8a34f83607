/** Track collection: paging through a playlist's items and extracting a fixed record
    from every item that still has a track. */
module Tracks {
  import opened Records
  import Pagination

  /** `get_tracks_from_playlist` stops asking for pages once this many items are held. */
  const ItemsCap: nat := 200

  /** `get_tracks_from_playlist`: no handler, so an exception from any page call leaves
      the function (the `Err` result). */
  method GetTracksFromPlaylist(chain: seq<Fetch<Item>>) returns (items: Result<seq<Item>>)
    requires Pagination.WellFormedChain(chain)
    ensures items == Pagination.Collected(chain, ItemsCap)
  {
    var calls;
    items, calls := Pagination.FetchPages(chain, ItemsCap);
    Pagination.CollectedAt(chain, ItemsCap, calls);
  }

  /** The tracks of the items that have one, in item order. */
  function PresentTracks(items: seq<Item>): seq<Track> {
    if items == [] then []
    else
      var n := |items| - 1;
      PresentTracks(items[..n]) + (match items[n].track case None => [] case Some(t) => [t])
  }

  /** Filtering distributes over concatenation: the kept tracks keep their relative order. */
  lemma {:induction false} PresentTracksAppend(a: seq<Item>, b: seq<Item>)
    ensures PresentTracks(a + b) == PresentTracks(a) + PresentTracks(b)
    decreases |b|
  {
    if b == [] {
      assert a + b == a;
    } else {
      var n := |b| - 1;
      assert (a + b)[..|a + b| - 1] == a + b[..n];
      PresentTracksAppend(a, b[..n]);
    }
  }

  /** Exactly the present tracks are kept. */
  lemma {:induction false} PresentTracksMembers(items: seq<Item>)
    ensures forall t :: t in PresentTracks(items) <==> Item(Some(t)) in items
    ensures |PresentTracks(items)| <= |items|
  {
    if items != [] {
      var n := |items| - 1;
      PresentTracksMembers(items[..n]);
      assert items == items[..n] + [items[n]];
    }
  }

  /** The record built from a track; the first listed artist is "the" artist. */
  function Project(t: Track): TrackRecord
    requires t.artists != []
  {
    TrackRecord(t.id, t.name, t.artists[0].name, t.artists[0].id, t.album.name,
                t.popularity, t.durationMs, t.explicit)
  }

  /** The result of `extract_track_data`: `None` when a present track lists no artist
      (reading `artists[0]` raises), otherwise one record per present track, in order. */
  function Extracted(items: seq<Item>): (r: Option<seq<TrackRecord>>)
    ensures r.None? <==> exists t :: t in PresentTracks(items) && t.artists == []
    ensures r.Some? ==> |r.value| == |PresentTracks(items)|
    ensures r.Some? ==> forall i :: 0 <= i < |r.value| ==>
      PresentTracks(items)[i].artists != [] && r.value[i] == Project(PresentTracks(items)[i])
  {
    if items == [] then Some([])
    else
      var n := |items| - 1;
      match Extracted(items[..n])
      case None => None
      case Some(rs) =>
        match items[n].track
        case None => Some(rs)
        case Some(t) => if t.artists == [] then None else Some(rs + [Project(t)])
  }

  /** `extract_track_data`, item by item. */
  method ExtractTrackData(items: seq<Item>) returns (records: Option<seq<TrackRecord>>)
    ensures records == Extracted(items)
  {
    var trackData: seq<TrackRecord> := [];
    for i := 0 to |items|
      invariant Extracted(items[..i]) == Some(trackData)
    {
      assert items[..i + 1][..i] == items[..i];
      var item := items[i];
      if item.track.None? {
        continue;
      }
      var track := item.track.value;
      if track.artists == [] {
        assert Extracted(items[..i + 1]).None?;
        ExtractedStaysNone(items, i + 1);
        return None;
      }
      trackData := trackData + [Project(track)];
    }
    assert items[..|items|] == items;
    records := Some(trackData);
  }

  /** Once a prefix fails to extract, so does the whole list. */
  lemma {:induction false} ExtractedStaysNone(items: seq<Item>, k: nat)
    requires k <= |items| && Extracted(items[..k]).None?
    ensures Extracted(items).None?
    decreases |items| - k
  {
    if k < |items| {
      assert items[..k + 1][..k] == items[..k];
      ExtractedStaysNone(items, k + 1);
    } else {
      assert items[..k] == items;
    }
  }
}
