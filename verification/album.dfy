/** The album structure of album.go: an album of discs, a disc of tracks.
    Offsets are `time.Duration` values, i.e. int64 nanosecond counts; the
    online identifier and the lyrics are filled in later by the metadata
    fetcher, which is not part of this model. */
module AlbumModel {

  datatype Track = Track(
    number: int,
    title: string,
    /** The performing artist; a duet track names more than the album artist. */
    artist: string,
    startTime: int,
    /** 0 means "to the end of the audio file". */
    endTime: int,
    /** A copy of the album title. */
    album: string,
    albumArtist: string,
    year: string,
    onlineId: int,
    lyrics: string)

  datatype Disc = Disc(discNumber: int, cuePath: string, wavPath: string, tracks: seq<Track>)

  datatype Album = Album(
    path: string,
    artist: string,
    title: string,
    year: string,
    /** Path of the cover image, or "" when there is none. */
    coverArt: string,
    discs: seq<Disc>,
    infoContent: string)

  /** `&Track{Number: n}`: the track a cue sheet's `TRACK` line opens. */
  function NewTrack(number: int): (t: Track)
    ensures t.number == number && t.title == "" && t.startTime == 0 && t.endTime == 0
  {
    Track(number, "", "", 0, 0, "", "", "", 0, "")
  }

  /** An album with only its path set, as the scanner starts it. */
  function NewAlbum(path: string): (a: Album)
    ensures a.path == path && a.discs == [] && a.coverArt == ""
  {
    Album(path, "", "", "", "", [], "")
  }

  function TrackCount(discs: seq<Disc>): nat {
    if |discs| == 0 then 0 else |discs[0].tracks| + TrackCount(discs[1..])
  }
}
