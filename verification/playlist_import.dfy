/**
 * Importing a Spotify playlist through the conversion service: the URL test
 * that gates the request, and the mapping of the service's Deezer-shaped
 * answer onto the app's own playlist record. The request itself is a
 * parameter: its answer, or `None` when it failed.
 */
module PlaylistImport {

  import opened Wrappers
  import opened Decimal
  import opened Tracks

  const PlaylistUrlMarker := "spotify.com/playlist/"
  const DefaultPlaylistName := "Imported Spotify Playlist"
  const DefaultPlaylistImage := "/images/defaultPlaylistImage.png"

  /** Deezer ids arrive from JSON as text or as a number; `toString()` renders either. */
  datatype DeezerId = IdText(text: string) | IdNumber(number: nat)

  datatype DeezerArtist = DeezerArtist(name: string, picture: string)

  datatype DeezerAlbum = DeezerAlbum(
    title: string,
    cover: string,
    coverSmall: string,
    coverMedium: string,
    coverBig: string,
    coverXl: string)

  datatype DeezerTrack = DeezerTrack(
    id: DeezerId,
    title: string,
    preview: string,
    artist: DeezerArtist,
    album: DeezerAlbum)

  datatype ConvertedPlaylist = ConvertedPlaylist(playlistName: string, tracks: seq<DeezerTrack>)

  /** `pattern` occurs in `s` starting at position `i`. */
  predicate MatchesAt(s: string, pattern: string, i: int) {
    0 <= i && i + |pattern| <= |s| && s[i..i + |pattern|] == pattern
  }

  /** `s.includes(pattern)` */
  predicate Includes(s: string, pattern: string) {
    exists i :: 0 <= i <= |s| && MatchesAt(s, pattern, i)
  }

  /** The substring search behind `includes`, position by position. */
  method FindPattern(s: string, pattern: string) returns (found: bool)
    ensures found <==> Includes(s, pattern)
  {
    if |pattern| > |s| {
      return false;
    }
    var i := 0;
    while i <= |s| - |pattern|
      invariant 0 <= i <= |s| - |pattern| + 1
      invariant forall k :: 0 <= k < i ==> !MatchesAt(s, pattern, k)
    {
      if MatchesAt(s, pattern, i) {
        return true;
      }
      i := i + 1;
    }
    return false;
  }

  /** Any URL that has the marker somewhere in it passes the test. */
  lemma MarkedUrlIncluded(prefix: string, suffix: string)
    ensures Includes(prefix + PlaylistUrlMarker + suffix, PlaylistUrlMarker)
  {
    var url := prefix + PlaylistUrlMarker + suffix;
    assert url[|prefix|..|prefix| + |PlaylistUrlMarker|] == PlaylistUrlMarker;
    assert MatchesAt(url, PlaylistUrlMarker, |prefix|);
  }

  /**
   * `handleConversion`: a URL without the playlist marker leaves the state
   * as it was and never reaches the service; otherwise a successful answer
   * becomes the converted playlist and a failed one changes nothing.
   */
  method HandleConversion(converted: Option<ConvertedPlaylist>, url: string, answer: Option<ConvertedPlaylist>)
    returns (r: Option<ConvertedPlaylist>, requested: bool)
    ensures requested <==> Includes(url, PlaylistUrlMarker)
    ensures !requested ==> r == converted
    ensures requested && answer.Some? ==> r == answer
    ensures requested && answer.None? ==> r == converted
  {
    requested := FindPattern(url, PlaylistUrlMarker);
    if !requested {
      return converted, false;
    }
    r := if answer.Some? then answer else converted;
  }

  function IdString(id: DeezerId): (r: string)
    ensures id.IdText? ==> r == id.text
    ensures id.IdNumber? ==> AllDigits(r) && ParseNat(r) == id.number
  {
    match id
    case IdText(t) => t
    case IdNumber(n) =>
      NatToStringRoundTrip(n);
      NatToString(n)
  }

  /** One service track as an app track: the id as text, the artist's name, the album's title and four covers. */
  function ToTrack(d: DeezerTrack): (t: Track)
    ensures t.id == IdString(d.id) && t.title == d.title && t.artist.name == d.artist.name
    ensures t.album == Album(d.album.title, d.album.coverMedium, d.album.coverSmall, d.album.coverBig, d.album.coverXl)
  {
    Track(IdString(d.id), d.title, Artist(d.artist.name),
      Album(d.album.title, d.album.coverMedium, d.album.coverSmall, d.album.coverBig, d.album.coverXl))
  }

  function ToTracks(ds: seq<DeezerTrack>): (ts: seq<Track>)
    ensures |ts| == |ds|
    ensures forall i :: 0 <= i < |ds| ==> ts[i] == ToTrack(ds[i])
  {
    seq(|ds|, i requires 0 <= i < |ds| => ToTrack(ds[i]))
  }

  /** All ids numeric and pairwise different. */
  predicate DistinctNumericIds(ds: seq<DeezerTrack>) {
    && (forall i :: 0 <= i < |ds| ==> ds[i].id.IdNumber?)
    && (forall i, j :: 0 <= i < j < |ds| ==> ds[i].id != ds[j].id)
  }

  /**
   * `handleMigrate`: nothing without a converted playlist; otherwise the
   * playlist keeps its name (or a default for an empty one), takes the first
   * track's extra-large cover as its image (or a default), and lists every
   * track in the same order. Numeric ids render as distinct decimal text, so
   * distinct numeric ids stay distinct for the id-keyed queue and like
   * operations.
   */
  function Migrate(converted: Option<ConvertedPlaylist>): (r: Option<Playlist>)
    ensures converted.None? <==> r.None?
    ensures converted.Some? ==>
      var c := converted.value;
      var p := r.value;
      && (c.playlistName != "" ==> p.name == c.playlistName)
      && (c.playlistName == "" ==> p.name == DefaultPlaylistName)
      && (|c.tracks| > 0 && c.tracks[0].album.coverXl != "" ==> p.image == c.tracks[0].album.coverXl)
      && (|c.tracks| == 0 || c.tracks[0].album.coverXl == "" ==> p.image == DefaultPlaylistImage)
      && |p.tracks| == |c.tracks|
      && (forall i :: 0 <= i < |c.tracks| ==> p.tracks[i] == ToTrack(c.tracks[i]))
      && !p.pinned && !p.downloaded
    ensures converted.Some? && DistinctNumericIds(converted.value.tracks) ==> UniqueIds(r.value.tracks)
  {
    match converted
    case None => None
    case Some(c) =>
      var name := if c.playlistName != "" then c.playlistName else DefaultPlaylistName;
      var image := if |c.tracks| > 0 && c.tracks[0].album.coverXl != "" then c.tracks[0].album.coverXl
                   else DefaultPlaylistImage;
      Some(Playlist(name, image, ToTracks(c.tracks), false, false))
  }
}
