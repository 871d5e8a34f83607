/** Audio-feature lookup: the id list is cut into consecutive slices of at most 100
    ids, one batch call is made per slice, and the answers are concatenated in order. */
module Features {
  import opened Records

  /** The service's ceiling on ids per batch call. */
  const BatchSize: nat := 100

  function Min(a: int, b: int): int {
    if a <= b then a else b
  }

  /** Consecutive slices of at most BatchSize ids. */
  function Batches<T>(ids: seq<T>): seq<seq<T>>
    decreases |ids|
  {
    if |ids| == 0 then []
    else if |ids| <= BatchSize then [ids]
    else [ids[..BatchSize]] + Batches(ids[BatchSize..])
  }

  function Flatten<T>(bs: seq<seq<T>>): seq<T> {
    if bs == [] then [] else bs[0] + Flatten(bs[1..])
  }

  /** The batches put back together give the ids, in order. */
  lemma {:induction false} BatchesFlatten<T>(ids: seq<T>)
    ensures Flatten(Batches(ids)) == ids
    decreases |ids|
  {
    if |ids| > BatchSize {
      BatchesFlatten(ids[BatchSize..]);
      assert ([ids[..BatchSize]] + Batches(ids[BatchSize..]))[1..] == Batches(ids[BatchSize..]);
      assert ids[..BatchSize] + ids[BatchSize..] == ids;
    } else if |ids| > 0 {
      assert [ids][1..] == [];
    }
  }

  /** n ids take ceil(n / 100) calls, each of 1 to 100 ids; call k covers ids[100k..100k+100]. */
  lemma {:induction false} BatchesShape<T>(ids: seq<T>)
    ensures |Batches(ids)| == (|ids| + BatchSize - 1) / BatchSize
    ensures forall k :: 0 <= k < |Batches(ids)| ==> 0 < |Batches(ids)[k]| <= BatchSize
    ensures forall k :: 0 <= k < |Batches(ids)| ==>
      Batches(ids)[k] == ids[BatchSize * k .. Min(BatchSize * k + BatchSize, |ids|)]
    decreases |ids|
  {
    if |ids| > BatchSize {
      var rest := ids[BatchSize..];
      BatchesShape(rest);
      var bs := Batches(ids);
      assert bs == [ids[..BatchSize]] + Batches(rest);
      forall k | 1 <= k < |bs|
        ensures bs[k] == ids[BatchSize * k .. Min(BatchSize * k + BatchSize, |ids|)]
      {
        assert bs[k] == Batches(rest)[k - 1];
        assert BatchSize * (k - 1) + BatchSize == BatchSize * k;
      }
    }
  }

  /** 150 ids take two calls, of 100 and 50 ids. */
  lemma HundredFifty<T>(ids: seq<T>)
    requires |ids| == 150
    ensures |Batches(ids)| == 2 && |Batches(ids)[0]| == 100 && |Batches(ids)[1]| == 50
  {
    BatchesShape(ids);
  }

  /** The answers to the batch calls for `bs`, concatenated in order; the first call
      that raises ends the lookup with its exception. */
  function Answers(audioFeatures: seq<string> -> Result<seq<Option<FeatureRecord>>>,
                   bs: seq<seq<string>>): Result<seq<Option<FeatureRecord>>>
  {
    if bs == [] then Ok([])
    else
      match audioFeatures(bs[0])
      case Err(e) => Err(e)
      case Ok(fs) => Prepend(fs, Answers(audioFeatures, bs[1..]))
  }

  /** The answers gathered so far, in front of those still to come. */
  function Prepend(acc: seq<Option<FeatureRecord>>, later: Result<seq<Option<FeatureRecord>>>)
    : Result<seq<Option<FeatureRecord>>>
  {
    match later
    case Err(e) => Err(e)
    case Ok(rest) => Ok(acc + rest)
  }

  lemma PrependNothing(later: Result<seq<Option<FeatureRecord>>>)
    ensures Prepend([], later) == later
  {
    if later.Ok? {
      assert [] + later.value == later.value;
    }
  }

  lemma PrependTwice(a: seq<Option<FeatureRecord>>, b: seq<Option<FeatureRecord>>,
                     later: Result<seq<Option<FeatureRecord>>>)
    ensures Prepend(a, Prepend(b, later)) == Prepend(a + b, later)
  {
    if later.Ok? {
      assert a + (b + later.value) == (a + b) + later.value;
    }
  }

  /** The batches actually sent: every batch up to and including the first whose call
      raises. */
  function Requested(audioFeatures: seq<string> -> Result<seq<Option<FeatureRecord>>>,
                     bs: seq<seq<string>>): seq<seq<string>>
  {
    if bs == [] then []
    else if audioFeatures(bs[0]).Err? then [bs[0]]
    else [bs[0]] + Requested(audioFeatures, bs[1..])
  }

  /** The batches sent are a prefix of all batches: every one of them but the last was
      answered, the lookup fails exactly when the last one sent raised (with its
      exception), and a lookup that succeeds sent every batch. */
  lemma {:induction false} RequestedSpec(audioFeatures: seq<string> -> Result<seq<Option<FeatureRecord>>>,
                                         bs: seq<seq<string>>)
    ensures var r := Requested(audioFeatures, bs);
      |r| <= |bs| && r == bs[..|r|]
    ensures var r := Requested(audioFeatures, bs);
      forall k :: 0 <= k < |r| - 1 ==> audioFeatures(r[k]).Ok?
    ensures var r := Requested(audioFeatures, bs);
      Answers(audioFeatures, bs).Err? <==> r != [] && audioFeatures(r[|r| - 1]).Err?
    ensures var r := Requested(audioFeatures, bs);
      Answers(audioFeatures, bs).Err? ==> Answers(audioFeatures, bs).error == audioFeatures(r[|r| - 1]).error
    ensures Answers(audioFeatures, bs).Ok? ==> Requested(audioFeatures, bs) == bs
  {
    if bs != [] && audioFeatures(bs[0]).Ok? {
      var tail := bs[1..];
      RequestedSpec(audioFeatures, tail);
      var r := Requested(audioFeatures, bs);
      var t := Requested(audioFeatures, tail);
      assert r == [bs[0]] + t;
      assert r == bs[..|r|] by {
        assert bs == [bs[0]] + tail;
        assert tail[..|t|] == t;
      }
      forall k | 0 <= k < |r| - 1 ensures audioFeatures(r[k]).Ok? {
        if k > 0 {
          assert r[k] == t[k - 1];
        }
      }
      if t != [] {
        assert r[|r| - 1] == t[|t| - 1];
      }
      assert Answers(audioFeatures, bs) == Prepend(audioFeatures(bs[0]).value, Answers(audioFeatures, tail));
    }
  }

  /** When the service answers one entry per requested id, the answers line up with the ids. */
  lemma {:induction false} AnswersLength(audioFeatures: seq<string> -> Result<seq<Option<FeatureRecord>>>,
                                         bs: seq<seq<string>>)
    requires forall k :: 0 <= k < |bs| && audioFeatures(bs[k]).Ok? ==>
      |audioFeatures(bs[k]).value| == |bs[k]|
    requires Answers(audioFeatures, bs).Ok?
    ensures |Answers(audioFeatures, bs).value| == |Flatten(bs)|
  {
    if bs != [] {
      var tail := bs[1..];
      assert forall k :: 0 <= k < |tail| ==> tail[k] == bs[k + 1];
      AnswersLength(audioFeatures, tail);
    }
  }

  /** One more slice off the front of what remains. */
  lemma BatchesStep<T>(ids: seq<T>, i: nat)
    requires i < |ids|
    ensures Batches(ids[i..]) ==
      [ids[i .. Min(i + BatchSize, |ids|)]] + Batches(ids[Min(i + BatchSize, |ids|)..])
  {
    var s := ids[i..];
    if |s| <= BatchSize {
      assert ids[Min(i + BatchSize, |ids|)..] == [];
      assert ids[i .. Min(i + BatchSize, |ids|)] == s;
    } else {
      assert s[..BatchSize] == ids[i .. i + BatchSize];
      assert s[BatchSize..] == ids[i + BatchSize..];
    }
  }

  /** `get_audio_features_batch`: `sent` are the batches requested, in order; an exception
      from a call leaves the function, so no later batch is requested. */
  method GetAudioFeaturesBatch(ids: seq<string>,
                               audioFeatures: seq<string> -> Result<seq<Option<FeatureRecord>>>)
    returns (features: Result<seq<Option<FeatureRecord>>>, sent: seq<seq<string>>)
    ensures features == Answers(audioFeatures, Batches(ids))
    ensures sent == Requested(audioFeatures, Batches(ids))
  {
    var featureData: seq<Option<FeatureRecord>> := [];
    sent := [];
    var i := 0;
    PrependNothing(Answers(audioFeatures, Batches(ids)));
    while i < |ids|
      invariant i <= |ids|
      invariant Answers(audioFeatures, Batches(ids)) == Prepend(featureData, Answers(audioFeatures, Batches(ids[i..])))
      invariant Requested(audioFeatures, Batches(ids)) == sent + Requested(audioFeatures, Batches(ids[i..]))
      decreases |ids| - i
    {
      var hi := Min(i + BatchSize, |ids|);
      var batch := ids[i..hi];
      BatchesStep(ids, i);
      ghost var rest := Batches(ids[hi..]);
      assert ([batch] + rest)[0] == batch && ([batch] + rest)[1..] == rest;
      sent := sent + [batch];
      var answer := audioFeatures(batch);
      if answer.Err? {
        features := Err(answer.error);
        return;
      }
      PrependTwice(featureData, answer.value, Answers(audioFeatures, rest));
      featureData := featureData + answer.value;
      i := hi;
    }
    assert ids[i..] == [];
    assert featureData + [] == featureData && sent + [] == sent;
    features := Ok(featureData);
  }
}
