/** Playlist discovery: the featured listing for a country, keyword search with four
    query templates, and the plain concatenation of the two. */
module Discovery {
  import opened Records
  import opened PyDict
  import Pagination

  /** `get_featured_playlists` stops asking for pages once this many are held. */
  const FeaturedCap: nat := 100

  /** The result of `get_featured_playlists`: the client library's exception becomes an
      empty list (the feature is not offered for the country); any other exception leaves
      the function. */
  function Featured(chain: seq<Fetch<Playlist>>): Result<seq<Playlist>>
    requires Pagination.WellFormedChain(chain)
  {
    match Pagination.Collected(chain, FeaturedCap)
    case Ok(ps) => Ok(ps)
    case Err(ServiceError) => Ok([])
    case Err(OtherError) => Err(OtherError)
  }

  method GetFeaturedPlaylists(chain: seq<Fetch<Playlist>>) returns (r: Result<seq<Playlist>>)
    requires Pagination.WellFormedChain(chain)
    ensures r == Featured(chain)
    ensures Pagination.Collected(chain, FeaturedCap).Ok? ==> r == Pagination.Collected(chain, FeaturedCap)
    ensures Pagination.Collected(chain, FeaturedCap) == Err(ServiceError) ==> r == Ok([])
    ensures r.Err? <==> Pagination.Collected(chain, FeaturedCap) == Err(OtherError)
  {
    var got, calls := Pagination.FetchPages(chain, FeaturedCap);
    Pagination.CollectedAt(chain, FeaturedCap, calls);
    match got
    case Ok(ps) => r := Ok(ps);
    case Err(e) => r := if e == ServiceError then Ok([]) else Err(e);
  }

  /** The four search queries, in the order they are tried. */
  function Queries(country: string): (qs: seq<string>)
    ensures |qs| == 4
  {
    ["top " + country, "charts " + country, "hits " + country, "popular " + country]
  }

  /** What one reply adds to the aggregate: its items when the reply carries them. */
  function Contributed(reply: SearchReply): seq<Playlist> {
    if reply.Found? then reply.playlists else []
  }

  /** Everything the queries contribute, in query order. */
  function Gathered(search: string -> SearchReply, qs: seq<string>): seq<Playlist> {
    if qs == [] then []
    else Gathered(search, qs[..|qs| - 1]) + Contributed(search(qs[|qs| - 1]))
  }

  /** A query's items are kept whatever happens to the later queries. */
  lemma {:induction false} GatheredContains(search: string -> SearchReply, qs: seq<string>, q: string, p: Playlist)
    requires q in qs && search(q).Found? && p in search(q).playlists
    ensures p in Gathered(search, qs)
  {
    var n := |qs| - 1;
    if qs[n] == q {
      assert p in Contributed(search(qs[n]));
    } else {
      assert q in qs[..n];
      GatheredContains(search, qs[..n], q, p);
    }
  }

  /** The queries whose search call raised, in order. */
  function Failed(search: string -> SearchReply, qs: seq<string>): (r: seq<string>)
    ensures |r| <= |qs|
    ensures forall q :: q in r <==> q in qs && search(q).SearchRaised?
    ensures Distinct(qs) ==> Distinct(r)
  {
    if qs == [] then []
    else
      var n := |qs| - 1;
      assert forall q :: q in qs <==> q in qs[..n] || q == qs[n];
      assert Distinct(qs) ==> Distinct(qs[..n]) && qs[n] !in qs[..n];
      Failed(search, qs[..n]) + (if search(qs[n]).SearchRaised? then [qs[n]] else [])
  }

  /** The four queries are different, so each is reported at most once. */
  lemma QueriesDistinct(country: string)
    ensures Distinct(Queries(country))
  {
    var qs := Queries(country);
    assert qs[0][0] == 't' && qs[1][0] == 'c' && qs[2][0] == 'h' && qs[3][0] == 'p';
  }

  function IdKey(p: Playlist): Option<string> {
    Some(p.id)
  }

  /** `list({p['id']: p for p in ps}.values())`. */
  function UniqueById(ps: seq<Playlist>): seq<Playlist> {
    Values(Comprehension(ps, IdKey))
  }

  /** The result of `get_country_top_playlists`: the gathered playlists deduplicated by
      id, or nothing when no query contributed. */
  function TopPlaylists(country: string, search: string -> SearchReply): seq<Playlist> {
    var all := Gathered(search, Queries(country));
    if all == [] then [] else UniqueById(all)
  }

  /** Position a of the deduplicated list holds the value stored under the a-th key. */
  lemma UniqueAt(ps: seq<Playlist>, a: int)
    requires 0 <= a < |UniqueById(ps)|
    ensures var d := Comprehension(ps, IdKey);
      |d.keys| == |UniqueById(ps)| && UniqueById(ps)[a] == d.entries[d.keys[a]]
      && UniqueById(ps)[a].id == d.keys[a] && UniqueById(ps)[a] in ps
  {
    ComprehensionKeys(ps, IdKey);
  }

  /** Search deduplication keeps each playlist id exactly once. */
  lemma UniqueIds(ps: seq<Playlist>)
    ensures var u := UniqueById(ps);
      forall i, j :: 0 <= i < j < |u| ==> u[i].id != u[j].id
  {
    forall i, j | 0 <= i < j < |UniqueById(ps)|
      ensures UniqueById(ps)[i].id != UniqueById(ps)[j].id
    {
      UniqueAt(ps, i);
      UniqueAt(ps, j);
    }
  }

  /** Search deduplication keeps only input playlists, and every input id. */
  /** Every playlist a search answered has its id among the top playlists, even when a
      later query raised. */
  lemma TopPlaylistsCovers(country: string, search: string -> SearchReply, q: string, p: Playlist)
    requires q in Queries(country) && search(q).Found? && p in search(q).playlists
    ensures exists u :: u in TopPlaylists(country, search) && u.id == p.id
  {
    GatheredContains(search, Queries(country), q, p);
    UniqueCovers(Gathered(search, Queries(country)));
  }

  lemma UniqueCovers(ps: seq<Playlist>)
    ensures forall p :: p in UniqueById(ps) ==> p in ps
    ensures forall p :: p in ps ==> exists q :: q in UniqueById(ps) && q.id == p.id
  {
    var d := Comprehension(ps, IdKey);
    var u := UniqueById(ps);
    forall p | p in u ensures p in ps {
      var a :| 0 <= a < |u| && u[a] == p;
      UniqueAt(ps, a);
    }
    forall p | p in ps ensures exists q :: q in u && q.id == p.id {
      var i :| 0 <= i < |ps| && ps[i] == p;
      assert IdKey(ps[i]) == Some(p.id);
      ComprehensionKeys(ps, IdKey);
      assert p.id in d.entries;
      var a :| 0 <= a < |d.keys| && d.keys[a] == p.id;
      UniqueAt(ps, a);
      var q := u[a];
      assert q in u && q.id == p.id;
    }
  }

  /** For a repeated id, the playlist kept is its last occurrence. */
  lemma UniqueLastWins(ps: seq<Playlist>)
    ensures forall i :: LastWithKey(ps, IdKey, i) ==> ps[i] in UniqueById(ps)
  {
    var d := Comprehension(ps, IdKey);
    ComprehensionKeys(ps, IdKey);
    ComprehensionLastWins(ps, IdKey);
    forall i | LastWithKey(ps, IdKey, i) ensures ps[i] in UniqueById(ps) {
      assert ps[i].id in d.entries;
      var a :| 0 <= a < |d.keys| && d.keys[a] == ps[i].id;
      UniqueAt(ps, a);
    }
  }

  /** Playlists are ordered by the first occurrence of their id. */
  lemma UniqueFirstOrder(ps: seq<Playlist>)
    ensures var u := UniqueById(ps);
      forall a :: 0 <= a < |u| ==> Occurs(ps, IdKey, u[a].id)
    ensures var u := UniqueById(ps);
      forall a, b :: 0 <= a < b < |u| ==>
        FirstIndex(ps, IdKey, u[a].id) < FirstIndex(ps, IdKey, u[b].id)
  {
    ComprehensionFirstOrder(ps, IdKey);
    forall a | 0 <= a < |UniqueById(ps)| ensures Occurs(ps, IdKey, UniqueById(ps)[a].id) {
      UniqueAt(ps, a);
    }
    forall a, b | 0 <= a < b < |UniqueById(ps)|
      ensures FirstIndex(ps, IdKey, UniqueById(ps)[a].id) < FirstIndex(ps, IdKey, UniqueById(ps)[b].id)
    {
      UniqueAt(ps, a);
      UniqueAt(ps, b);
    }
  }

  /** `get_country_top_playlists` as written: the pause after each query is misspelled
      (`time.slelep`), so it raises after the reply's items were appended, and the
      per-query handler catches it. Every query is reported as an error and no pause is
      ever taken; the playlists are unaffected. */
  method GetCountryTopPlaylistsAsWritten(country: string, search: string -> SearchReply)
    returns (playlists: seq<Playlist>, asked: seq<string>, reported: seq<string>, pauses: nat)
    ensures playlists == TopPlaylists(country, search)
    ensures asked == Queries(country)
    ensures reported == Queries(country)
    ensures pauses == 0
  {
    var queries := Queries(country);
    var all: seq<Playlist> := [];
    asked, reported, pauses := [], [], 0;
    for i := 0 to |queries|
      invariant asked == queries[..i]
      invariant reported == queries[..i]
      invariant all == Gathered(search, queries[..i])
    {
      var q := queries[i];
      assert queries[..i + 1] == queries[..i] + [q];
      assert queries[..i + 1][..i] == queries[..i];
      asked := asked + [q];
      var reply := search(q);
      if reply.SearchRaised? {
        reported := reported + [q];
      } else {
        if reply.Found? {
          all := all + reply.playlists;
        }
        // the misspelled pause raises here and lands in the same handler
        reported := reported + [q];
      }
    }
    assert queries[..|queries|] == queries;
    if all == [] {
      playlists := [];
    } else {
      playlists := UniqueById(all);
    }
  }

  /** `get_country_top_playlists` with the pause spelled as intended: only a query whose
      search raised is reported, and every other query is followed by a pause. */
  method GetCountryTopPlaylists(country: string, search: string -> SearchReply)
    returns (playlists: seq<Playlist>, asked: seq<string>, reported: seq<string>, pauses: nat)
    ensures playlists == TopPlaylists(country, search)
    ensures asked == Queries(country)
    ensures reported == Failed(search, Queries(country))
    ensures pauses == |Queries(country)| - |Failed(search, Queries(country))|
  {
    var queries := Queries(country);
    var all: seq<Playlist> := [];
    asked, reported, pauses := [], [], 0;
    for i := 0 to |queries|
      invariant asked == queries[..i]
      invariant reported == Failed(search, queries[..i])
      invariant pauses == i - |Failed(search, queries[..i])|
      invariant all == Gathered(search, queries[..i])
    {
      var q := queries[i];
      assert queries[..i + 1] == queries[..i] + [q];
      assert queries[..i + 1][..i] == queries[..i];
      asked := asked + [q];
      var reply := search(q);
      if reply.SearchRaised? {
        reported := reported + [q];
      } else {
        if reply.Found? {
          all := all + reply.playlists;
        }
        pauses := pauses + 1;
      }
    }
    assert queries[..|queries|] == queries;
    if all == [] {
      playlists := [];
    } else {
      playlists := UniqueById(all);
    }
  }

  /** The misspelled pause reports a query as failed although its search answered:
      whenever some query does not raise, the as-written report (every query) differs
      from the intended one (the raising queries). */
  lemma {:induction false} FailedMissesAnswered(search: string -> SearchReply, qs: seq<string>)
    requires exists q :: q in qs && !search(q).SearchRaised?
    ensures |Failed(search, qs)| < |qs|
    ensures Failed(search, qs) != qs
  {
    var n := |qs| - 1;
    if search(qs[n]).SearchRaised? {
      var q :| q in qs && !search(q).SearchRaised?;
      assert q in qs[..n] by {
        var k :| 0 <= k < |qs| && qs[k] == q;
        assert k != n;
        assert qs[..n][k] == q;
      }
      FailedMissesAnswered(search, qs[..n]);
    }
  }

  /** The playlist list of a run: the featured playlists followed by the search results. */
  function Discover(country: string, featured: seq<Fetch<Playlist>>, search: string -> SearchReply)
    : Result<seq<Playlist>>
    requires Pagination.WellFormedChain(featured)
  {
    match Featured(featured)
    case Err(e) => Err(e)
    case Ok(fs) => Ok(fs + TopPlaylists(country, search))
  }

  /** No deduplication happens across the two strategies: a playlist found by both
      appears twice. */
  lemma DiscoverKeepsDuplicates(country: string, featured: seq<Fetch<Playlist>>,
                                search: string -> SearchReply, p: Playlist)
    requires Pagination.WellFormedChain(featured)
    requires Featured(featured).Ok? && p in Featured(featured).value
    requires p in TopPlaylists(country, search)
    ensures Discover(country, featured, search).Ok?
    ensures var all := Discover(country, featured, search).value;
      exists i, j :: 0 <= i < j < |all| && all[i] == p && all[j] == p
  {
    var fs := Featured(featured).value;
    var ts := TopPlaylists(country, search);
    var all := fs + ts;
    var i :| 0 <= i < |fs| && fs[i] == p;
    var j :| 0 <= j < |ts| && ts[j] == p;
    assert all[i] == p && all[|fs| + j] == p;
  }
}
