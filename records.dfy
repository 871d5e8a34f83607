/** The records the collection pipeline handles, and the answers the remote catalog
    service gives to each kind of call. The service itself is not modelled: a run
    receives the answers it would get as plain data. */
module Records {

  /** Python's `None` or a value. */
  datatype Option<T> = None | Some(value: T)

  /** The two kinds of exception the pipeline distinguishes: the client library's own
      `SpotifyException`, and anything else (a connection failure, a missing key). */
  datatype Error = ServiceError | OtherError

  /** The value a call returns, or the exception it raises. */
  datatype Result<T> = Ok(value: T) | Err(error: Error)

  /** A playlist as listed by the featured-playlists call and by playlist search. */
  datatype Playlist = Playlist(id: string, name: string)

  /** An artist credited on a track; local files have artists without an id. */
  datatype Artist = Artist(name: string, id: Option<string>)

  datatype Album = Album(name: string)

  /** The track object inside a playlist item; local files have no id. */
  datatype Track = Track(
    id: Option<string>,
    name: string,
    artists: seq<Artist>,
    album: Album,
    popularity: int,
    durationMs: int,
    explicit: bool)

  /** A playlist item: `track` is absent for removed or unavailable tracks. */
  datatype Item = Item(track: Option<Track>)

  /** The fixed record extracted from one track. */
  datatype TrackRecord = TrackRecord(
    id: Option<string>,
    name: string,
    artist: string,
    artistId: Option<string>,
    album: string,
    popularity: int,
    durationMs: int,
    explicit: bool)

  /** Audio features of one track: its id and the numeric descriptors, kept opaque. */
  datatype FeatureRecord = FeatureRecord(id: string, descriptors: seq<real>)

  /** One row of the merged table. */
  datatype MergedRecord = MergedRecord(track: TrackRecord, features: FeatureRecord)

  /** One page of a paginated listing: its items and whether a next-page cursor is set. */
  datatype Page<T> = Page(items: seq<T>, hasNext: bool)

  /** The answer to one page request: the page, or the exception raised. */
  datatype Fetch<T> = Got(page: Page<T>) | Raised(error: Error)

  /** The answer to one playlist search: a reply carrying playlist items, a reply
      without them (no `playlists` or no `items` key), or a raised exception. */
  datatype SearchReply = Found(playlists: seq<Playlist>) | WithoutItems | SearchRaised
}
