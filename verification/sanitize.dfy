/**
 * Defensive clean-up of a track record that may have missing or empty fields
 * (components/index.tsx `sanitizeTrack`): each absent or empty text field is
 * replaced by a fixed placeholder, and absent cover URLs by the empty string.
 */
module Sanitize {

  import opened Wrappers
  import opened Tracks

  datatype RawArtist = RawArtist(name: Option<string>)

  datatype RawAlbum = RawAlbum(
    title: Option<string>,
    coverMedium: Option<string>,
    coverSmall: Option<string>,
    coverBig: Option<string>,
    coverXl: Option<string>)

  /** A track as it may arrive: every field, and the nested records, may be missing. */
  datatype RawTrack = RawTrack(
    id: Option<string>,
    title: Option<string>,
    artist: Option<RawArtist>,
    album: Option<RawAlbum>)

  const UnknownId := "unknown-id"
  const UnknownTitle := "Unknown Title"
  const UnknownArtist := "Unknown Artist"
  const UnknownAlbum := "Unknown Album"

  /** A present, non-empty string. */
  predicate Given(x: Option<string>) {
    x.Some? && x.value != ""
  }

  /** `x || fallback`: both a missing and an empty string are falsy. */
  function OrElse(x: Option<string>, fallback: string): (r: string)
    ensures Given(x) ==> r == x.value
    ensures !Given(x) ==> r == fallback
  {
    if Given(x) then x.value else fallback
  }

  /** `track.artist?.name` */
  function ArtistName(t: RawTrack): Option<string> {
    match t.artist
    case Some(a) => a.name
    case None => None
  }

  /** The album record, reading a missing one as having no fields (`track.album?.x`). */
  function AlbumOf(t: RawTrack): RawAlbum {
    match t.album
    case Some(a) => a
    case None => RawAlbum(None, None, None, None, None)
  }

  function SanitizeTrack(t: RawTrack): (r: Track)
    ensures r.id != "" && r.title != "" && r.artist.name != "" && r.album.title != ""
    ensures Given(t.id) ==> r.id == t.id.value
    ensures !Given(t.id) ==> r.id == UnknownId
    ensures Given(t.title) ==> r.title == t.title.value
    ensures !Given(t.title) ==> r.title == UnknownTitle
    ensures Given(ArtistName(t)) ==> r.artist.name == ArtistName(t).value
    ensures !Given(ArtistName(t)) ==> r.artist.name == UnknownArtist
    ensures Given(AlbumOf(t).title) ==> r.album.title == AlbumOf(t).title.value
    ensures !Given(AlbumOf(t).title) ==> r.album.title == UnknownAlbum
    ensures r.album.coverMedium == AlbumOf(t).coverMedium.GetOr("")
    ensures r.album.coverSmall == AlbumOf(t).coverSmall.GetOr("")
    ensures r.album.coverBig == AlbumOf(t).coverBig.GetOr("")
    ensures r.album.coverXl == AlbumOf(t).coverXl.GetOr("")
  {
    Track(
      OrElse(t.id, UnknownId),
      OrElse(t.title, UnknownTitle),
      Artist(OrElse(ArtistName(t), UnknownArtist)),
      Album(
        OrElse(AlbumOf(t).title, UnknownAlbum),
        OrElse(AlbumOf(t).coverMedium, ""),
        OrElse(AlbumOf(t).coverSmall, ""),
        OrElse(AlbumOf(t).coverBig, ""),
        OrElse(AlbumOf(t).coverXl, "")))
  }

  /** A complete track viewed as a raw record with every field present. */
  function ToRaw(t: Track): (r: RawTrack)
    ensures r.id == Some(t.id) && r.title == Some(t.title)
  {
    RawTrack(
      Some(t.id),
      Some(t.title),
      Some(RawArtist(Some(t.artist.name))),
      Some(RawAlbum(
        Some(t.album.title),
        Some(t.album.coverMedium),
        Some(t.album.coverSmall),
        Some(t.album.coverBig),
        Some(t.album.coverXl))))
  }

  /** A track whose text fields are all non-empty passes through unchanged. */
  lemma SanitizeKeepsCompleteTrack(t: Track)
    requires t.id != "" && t.title != "" && t.artist.name != "" && t.album.title != ""
    ensures SanitizeTrack(ToRaw(t)) == t
  {
  }

  /** Sanitizing a sanitized track changes nothing. */
  lemma SanitizeIdempotent(t: RawTrack)
    ensures SanitizeTrack(ToRaw(SanitizeTrack(t))) == SanitizeTrack(t)
  {
    SanitizeKeepsCompleteTrack(SanitizeTrack(t));
  }
}
