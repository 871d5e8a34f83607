/** The aggregation steps of `collect_country_music_data`: track deduplication by id,
    dropping absent feature entries, and the inner join of the two tables on `id`. */
module Aggregation {
  import opened Records
  import opened PyDict

  function TrackKey(t: TrackRecord): Option<string> {
    t.id
  }

  /** `{t['id']: t for t in tracks if t['id'] is not None}`. */
  function DedupTracks(ts: seq<TrackRecord>): Dict<string, TrackRecord> {
    Comprehension(ts, TrackKey)
  }

  /** Track deduplication: the keys are exactly the ids that are not None, each value
      carries its key as id, and for a repeated id the last record wins. */
  lemma DedupTracksSpec(ts: seq<TrackRecord>)
    ensures var d := DedupTracks(ts);
      forall k :: k in d.entries <==> exists t :: t in ts && t.id == Some(k)
    ensures var d := DedupTracks(ts);
      forall k :: k in d.entries ==> d.entries[k].id == Some(k) && d.entries[k] in ts
    ensures var d := DedupTracks(ts);
      forall i :: 0 <= i < |ts| && ts[i].id.Some? && (forall j :: i < j < |ts| ==> ts[j].id != ts[i].id) ==>
        ts[i].id.value in d.entries && d.entries[ts[i].id.value] == ts[i]
  {
    var d := DedupTracks(ts);
    ComprehensionKeys(ts, TrackKey);
    ComprehensionLastWins(ts, TrackKey);
    forall k ensures k in d.entries <==> exists t :: t in ts && t.id == Some(k) {
      if k in d.entries {
        var i :| 0 <= i < |ts| && TrackKey(ts[i]) == Some(k);
        assert ts[i] in ts && ts[i].id == Some(k);
      }
      if exists t :: t in ts && t.id == Some(k) {
        var t :| t in ts && t.id == Some(k);
        var i :| 0 <= i < |ts| && ts[i] == t;
        assert TrackKey(ts[i]) == Some(k);
      }
    }
    forall i | 0 <= i < |ts| && ts[i].id.Some? && (forall j :: i < j < |ts| ==> ts[j].id != ts[i].id)
      ensures ts[i].id.value in d.entries && d.entries[ts[i].id.value] == ts[i]
    {
      assert LastWithKey(ts, TrackKey, i);
    }
  }

  /** The track table built from the deduplicated records has pairwise distinct ids,
      none of them None. */
  lemma DedupTableIds(ts: seq<TrackRecord>)
    ensures var d := DedupTracks(ts);
      |Values(d)| == |d.keys| &&
      forall a :: 0 <= a < |d.keys| ==> Values(d)[a].id == Some(d.keys[a])
    ensures DistinctIds(Values(DedupTracks(ts)))
    ensures forall t :: t in Values(DedupTracks(ts)) ==> t.id.Some? && t in ts
  {
    var d := DedupTracks(ts);
    ComprehensionKeys(ts, TrackKey);
    assert forall a :: 0 <= a < |d.keys| ==> d.keys[a] in d.entries;
  }

  /** The track table is empty exactly when no record has an id. */
  lemma DedupEmpty(ts: seq<TrackRecord>)
    ensures Values(DedupTracks(ts)) == [] <==> forall t :: t in ts ==> t.id.None?
  {
    var d := DedupTracks(ts);
    DedupTracksSpec(ts);
    DedupTableIds(ts);
    if t :| t in ts && t.id.Some? {
      assert t.id.value in d.entries;
      assert t.id.value in d.keys;
    }
    if d.keys != [] {
      assert d.keys[0] in d.entries;
    }
  }

  /** No two records share an id. */
  predicate DistinctIds(ts: seq<TrackRecord>) {
    forall i, j :: 0 <= i < j < |ts| ==> ts[i].id != ts[j].id
  }

  predicate DistinctFeatureIds(fs: seq<FeatureRecord>) {
    forall i, j :: 0 <= i < j < |fs| ==> fs[i].id != fs[j].id
  }

  /** `[f for f in features if f is not None]`. */
  function PresentFeatures(fs: seq<Option<FeatureRecord>>): (r: seq<FeatureRecord>)
    ensures forall f :: f in r <==> Some(f) in fs
    ensures |r| <= |fs|
  {
    if fs == [] then []
    else (if fs[0].Some? then [fs[0].value] else []) + PresentFeatures(fs[1..])
  }

  predicate SameId(t: TrackRecord, f: FeatureRecord) {
    t.id == Some(f.id)
  }

  /** The merged rows of one track: one per feature record with its id, in feature order. */
  function Matches(t: TrackRecord, fs: seq<FeatureRecord>): (r: seq<MergedRecord>)
    ensures forall m :: m in r <==> exists f :: f in fs && SameId(t, f) && m == MergedRecord(t, f)
  {
    if fs == [] then []
    else
      var n := |fs| - 1;
      assert forall f :: f in fs <==> f in fs[..n] || f == fs[n];
      Matches(t, fs[..n]) + (if SameId(t, fs[n]) then [MergedRecord(t, fs[n])] else [])
  }

  /** `pd.merge(tracks, features, on='id')`: the inner join, rows in track order. */
  function InnerJoin(ts: seq<TrackRecord>, fs: seq<FeatureRecord>): (r: seq<MergedRecord>)
    ensures forall m :: m in r <==>
      exists t, f :: t in ts && f in fs && SameId(t, f) && m == MergedRecord(t, f)
  {
    if ts == [] then []
    else
      assert forall t :: t in ts <==> t == ts[0] || t in ts[1..];
      Matches(ts[0], fs) + InnerJoin(ts[1..], fs)
  }

  /** How many records of ts have the id of f. */
  function CountWithId(ts: seq<TrackRecord>, f: FeatureRecord): nat {
    if ts == [] then 0 else (if SameId(ts[0], f) then 1 else 0) + CountWithId(ts[1..], f)
  }

  lemma {:induction false} CountWithIdAtMostOne(ts: seq<TrackRecord>, f: FeatureRecord)
    requires DistinctIds(ts)
    ensures CountWithId(ts, f) <= 1
  {
    if ts != [] {
      if SameId(ts[0], f) {
        CountWithIdNone(ts[1..], f);
      } else {
        CountWithIdAtMostOne(ts[1..], f);
      }
    }
  }

  lemma {:induction false} CountWithIdNone(ts: seq<TrackRecord>, f: FeatureRecord)
    requires forall t :: t in ts ==> !SameId(t, f)
    ensures CountWithId(ts, f) == 0
  {
    if ts != [] {
      assert ts[0] in ts;
      CountWithIdNone(ts[1..], f);
    }
  }

  /** Appending a feature record adds one row per track with its id. */
  lemma {:induction false} JoinSnocFeature(ts: seq<TrackRecord>, fs: seq<FeatureRecord>, f: FeatureRecord)
    ensures |InnerJoin(ts, fs + [f])| == |InnerJoin(ts, fs)| + CountWithId(ts, f)
  {
    if ts != [] {
      assert (fs + [f])[..|fs|] == fs;
      JoinSnocFeature(ts[1..], fs, f);
    }
  }

  /** With distinct track ids, each feature record joins at most one track. */
  lemma {:induction false} JoinBoundByFeatures(ts: seq<TrackRecord>, fs: seq<FeatureRecord>)
    requires DistinctIds(ts)
    ensures |InnerJoin(ts, fs)| <= |fs|
  {
    if fs == [] {
      JoinEmptyFeatures(ts);
    } else {
      var n := |fs| - 1;
      JoinBoundByFeatures(ts, fs[..n]);
      JoinSnocFeature(ts, fs[..n], fs[n]);
      CountWithIdAtMostOne(ts, fs[n]);
      assert fs[..n] + [fs[n]] == fs;
    }
  }

  lemma {:induction false} JoinEmptyFeatures(ts: seq<TrackRecord>)
    ensures InnerJoin(ts, []) == []
  {
    if ts != [] {
      JoinEmptyFeatures(ts[1..]);
    }
  }

  /** With distinct feature ids, each track joins at most one feature record. */
  lemma {:induction false} MatchesAtMostOne(t: TrackRecord, fs: seq<FeatureRecord>)
    requires DistinctFeatureIds(fs)
    ensures |Matches(t, fs)| <= 1
  {
    if fs != [] {
      var n := |fs| - 1;
      var pre := fs[..n];
      assert DistinctFeatureIds(pre);
      if SameId(t, fs[n]) {
        MatchesNone(t, pre);
      } else {
        MatchesAtMostOne(t, pre);
      }
    }
  }

  lemma {:induction false} MatchesNone(t: TrackRecord, fs: seq<FeatureRecord>)
    requires forall f :: f in fs ==> !SameId(t, f)
    ensures Matches(t, fs) == []
  {
    if fs != [] {
      var n := |fs| - 1;
      assert fs[n] in fs;
      MatchesNone(t, fs[..n]);
    }
  }

  lemma {:induction false} JoinBoundByTracks(ts: seq<TrackRecord>, fs: seq<FeatureRecord>)
    requires DistinctFeatureIds(fs)
    ensures |InnerJoin(ts, fs)| <= |ts|
  {
    if ts != [] {
      MatchesAtMostOne(ts[0], fs);
      JoinBoundByTracks(ts[1..], fs);
    }
  }

  /** Tables with no id in common join to nothing. */
  lemma {:induction false} JoinNoCommonId(ts: seq<TrackRecord>, fs: seq<FeatureRecord>)
    requires forall t, f :: t in ts && f in fs ==> !SameId(t, f)
    ensures InnerJoin(ts, fs) == []
  {
    if ts != [] {
      assert ts[0] in ts;
      MatchesNone(ts[0], fs);
      JoinNoCommonId(ts[1..], fs);
    }
  }
}
