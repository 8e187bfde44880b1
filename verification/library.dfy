/**
 * The keyed-list helpers around the player: the "recently played" shelf, the
 * recent-search list, the Liked Songs playlist, playlist pinning, deletion and
 * drag-reordering, the track selection of the playlist editor, and the
 * per-track listen counts.
 */
module Library {

  import opened Wrappers
  import opened Tracks
  import Sanitize

  /** Length of the "recently played" shelf. */
  const RecentlyPlayedCap := 4

  /** Length of the recent-search list. */
  const RecentSearchesCap := 5

  /** `[t, ...recent.filter(x => x.id !== t.id)].slice(0, 4)` */
  function RecentlyPlayed(recent: seq<Track>, t: Track): (r: seq<Track>)
    ensures 1 <= |r| <= RecentlyPlayedCap
    ensures r[0] == t
    ensures forall k :: 1 <= k < |r| ==> r[k].id != t.id
    ensures |r| == if |RemoveId(recent, t.id)| < RecentlyPlayedCap then |RemoveId(recent, t.id)| + 1 else RecentlyPlayedCap
    ensures r[1..] == RemoveId(recent, t.id)[..|r| - 1]
    ensures UniqueIds(recent) ==> UniqueIds(r)
  {
    var moved := MoveToFront(recent, t);
    var n := if |moved| < RecentlyPlayedCap then |moved| else RecentlyPlayedCap;
    assert moved[..n][1..] == moved[1..][..n - 1];
    moved[..n]
  }

  /** Recording the same track twice in a row is the same as recording it once. */
  lemma RecentlyPlayedIdempotent(recent: seq<Track>, t: Track)
    ensures RecentlyPlayed(RecentlyPlayed(recent, t), t) == RecentlyPlayed(recent, t)
  {
    var r := RecentlyPlayed(recent, t);
    assert r == [t] + r[1..];
    assert !HasId(r[1..], t.id);
    RemoveIdAppend([t], r[1..], t.id);
    assert RemoveId([t], t.id) == [];
  }

  /** ECMAScript white space and line terminators: what `String.prototype.trim` strips. */
  predicate IsJsWhitespace(c: char) {
    var n := c as int;
    n == 0x09 || n == 0x0A || n == 0x0B || n == 0x0C || n == 0x0D || n == 0x20
    || n == 0xA0 || n == 0x1680 || (0x2000 <= n <= 0x200A) || n == 0x2028 || n == 0x2029
    || n == 0x202F || n == 0x205F || n == 0x3000 || n == 0xFEFF
  }

  /** `!query.trim()`: the query is empty after trimming. */
  predicate IsBlank(query: string) {
    forall i :: 0 <= i < |query| ==> IsJsWhitespace(query[i])
  }

  /** `prev.filter(item => item !== query)` */
  function RemoveQuery(prev: seq<string>, query: string): (r: seq<string>)
    ensures query !in r
    ensures forall x :: x in r <==> x in prev && x != query
    ensures query !in prev ==> r == prev
    ensures |r| <= |prev|
    ensures multiset(r)[query] == 0
    ensures forall x :: x != query ==> multiset(r)[x] == multiset(prev)[x]
    decreases |prev|
  {
    if prev == [] then []
    else
      assert prev == [prev[0]] + prev[1..];
      if prev[0] == query then RemoveQuery(prev[1..], query)
      else [prev[0]] + RemoveQuery(prev[1..], query)
  }

  /** Removing a query keeps the other entries in their order: it distributes over `+`. */
  lemma {:induction false} RemoveQueryAppend(a: seq<string>, b: seq<string>, query: string)
    ensures RemoveQuery(a + b, query) == RemoveQuery(a, query) + RemoveQuery(b, query)
    decreases |a|
  {
    if a == [] {
      assert a + b == b;
    } else {
      assert (a + b)[1..] == a[1..] + b;
      RemoveQueryAppend(a[1..], b, query);
    }
  }

  /**
   * The recent-search update of `handleSearch`: a blank query changes nothing;
   * any other query moves to the front, and the list keeps at most five entries.
   */
  function RecentSearches(prev: seq<string>, query: string): (r: seq<string>)
    ensures IsBlank(query) ==> r == prev
    ensures !IsBlank(query) ==>
      && 1 <= |r| <= RecentSearchesCap
      && r[0] == query
      && query !in r[1..]
      && |r| - 1 <= |RemoveQuery(prev, query)|
      && |r| == (if 1 + |RemoveQuery(prev, query)| < RecentSearchesCap then 1 + |RemoveQuery(prev, query)| else RecentSearchesCap)
      && r[1..] == RemoveQuery(prev, query)[..|r| - 1]
  {
    if IsBlank(query) then prev
    else
      var moved := [query] + RemoveQuery(prev, query);
      var n := if |moved| < RecentSearchesCap then |moved| else RecentSearchesCap;
      assert moved[..n][1..] == moved[1..][..n - 1];
      assert forall x :: x in moved[1..][..n - 1] ==> x in moved[1..];
      moved[..n]
  }

  /** Searching for the same query twice in a row records it once. */
  lemma RecentSearchesIdempotent(prev: seq<string>, query: string)
    ensures RecentSearches(RecentSearches(prev, query), query) == RecentSearches(prev, query)
  {
    if !IsBlank(query) {
      var r := RecentSearches(prev, query);
      assert r == [query] + r[1..];
      assert RemoveQuery(r, query) == r[1..];
    }
  }

  /** The distinguished playlist that is the only record of what is liked. */
  const LikedSongs := "Liked Songs"

  predicate HasPlaylist(ps: seq<Playlist>, name: string) {
    exists i :: 0 <= i < |ps| && ps[i].name == name
  }

  /** Add `t` to, or remove its id from, one playlist. */
  function ToggleIn(p: Playlist, t: Track): (r: Playlist)
    ensures HasId(r.tracks, t.id) <==> !HasId(p.tracks, t.id)
    ensures r.name == p.name && r.image == p.image && r.pinned == p.pinned && r.downloaded == p.downloaded
    ensures forall u: Track :: u.id != t.id ==> (u in r.tracks <==> u in p.tracks)
    ensures HasId(p.tracks, t.id) ==> r.tracks == RemoveId(p.tracks, t.id)
    ensures !HasId(p.tracks, t.id) ==> r.tracks == p.tracks + [t]
  {
    if HasId(p.tracks, t.id) then p.(tracks := RemoveId(p.tracks, t.id))
    else
      assert (p.tracks + [t])[|p.tracks|] == t;
      p.(tracks := p.tracks + [t])
  }

  /**
   * The like toggle of the first variant: each playlist named Liked Songs gains
   * or loses `t` by its own membership; nothing happens without a track or
   * without a Liked Songs playlist.
   */
  function ToggleLike(ps: seq<Playlist>, track: Option<Track>): (r: seq<Playlist>)
    ensures |r| == |ps|
    ensures track.None? || !HasPlaylist(ps, LikedSongs) ==> r == ps
    ensures forall i :: 0 <= i < |ps| && ps[i].name != LikedSongs ==> r[i] == ps[i]
    ensures track.Some? && HasPlaylist(ps, LikedSongs) ==> forall i :: 0 <= i < |ps| && ps[i].name == LikedSongs ==>
      r[i] == ToggleIn(ps[i], track.value)
  {
    match track
    case None => ps
    case Some(t) =>
      if !HasPlaylist(ps, LikedSongs) then ps
      else seq(|ps|, i requires 0 <= i < |ps| => if ps[i].name == LikedSongs then ToggleIn(ps[i], t) else ps[i])
  }

  /** `isTrackLiked`: some Liked Songs playlist holds the track's id. */
  predicate IsLiked(ps: seq<Playlist>, t: Track) {
    exists i :: 0 <= i < |ps| && ps[i].name == LikedSongs && HasId(ps[i].tracks, t.id)
  }

  /** With a single Liked Songs playlist, toggling flips whether the track is liked. */
  lemma ToggleLikeFlips(ps: seq<Playlist>, t: Track, j: int)
    requires 0 <= j < |ps| && ps[j].name == LikedSongs
    requires forall i :: 0 <= i < |ps| && ps[i].name == LikedSongs ==> i == j
    ensures IsLiked(ToggleLike(ps, Some(t)), t) <==> !IsLiked(ps, t)
  {
    var r := ToggleLike(ps, Some(t));
    assert r[j] == ToggleIn(ps[j], t);
    if IsLiked(r, t) {
      var i :| 0 <= i < |r| && r[i].name == LikedSongs && HasId(r[i].tracks, t.id);
      assert ps[i].name == LikedSongs;
    }
  }

  /**
   * Toggling twice restores membership in every playlist; a track that was not
   * liked leaves every playlist exactly as it was.
   */
  lemma ToggleLikeTwice(ps: seq<Playlist>, t: Track)
    ensures var r := ToggleLike(ToggleLike(ps, Some(t)), Some(t));
      forall i :: 0 <= i < |ps| ==> (HasId(r[i].tracks, t.id) <==> HasId(ps[i].tracks, t.id))
    ensures !IsLiked(ps, t) ==> ToggleLike(ToggleLike(ps, Some(t)), Some(t)) == ps
  {
    var r1 := ToggleLike(ps, Some(t));
    var r := ToggleLike(r1, Some(t));
    assert HasPlaylist(r1, LikedSongs) <==> HasPlaylist(ps, LikedSongs) by {
      if HasPlaylist(ps, LikedSongs) {
        var i :| 0 <= i < |ps| && ps[i].name == LikedSongs;
        assert r1[i].name == LikedSongs;
      }
      if HasPlaylist(r1, LikedSongs) {
        var i :| 0 <= i < |r1| && r1[i].name == LikedSongs;
        assert ps[i].name == LikedSongs;
      }
    }
    if !IsLiked(ps, t) {
      forall i | 0 <= i < |ps|
        ensures r[i] == ps[i]
      {
        if ps[i].name == LikedSongs && HasPlaylist(ps, LikedSongs) {
          assert !HasId(ps[i].tracks, t.id);
          var tracks := ps[i].tracks;
          RemoveIdAppend(tracks, [t], t.id);
          assert RemoveId([t], t.id) == [];
          assert tracks + [] == tracks;
        }
      }
    }
  }

  /** `ps.find(p => p.name === name)`: the index of the first playlist so named. */
  function FindPlaylist(ps: seq<Playlist>, name: string): (r: int)
    ensures -1 <= r < |ps|
    ensures r == -1 <==> !HasPlaylist(ps, name)
    ensures r >= 0 ==> ps[r].name == name && forall k :: 0 <= k < r ==> ps[k].name != name
    decreases |ps|
  {
    if ps == [] then -1
    else if ps[0].name == name then 0
    else
      var k := FindPlaylist(ps[1..], name);
      if k == -1 then -1 else k + 1
  }

  /**
   * The like toggle of the second variant: the raw track is sanitized first,
   * and the add-or-remove decision is taken once, from the first Liked Songs
   * playlist, then applied to every playlist of that name.
   */
  function ToggleLikeSanitized(ps: seq<Playlist>, raw: Option<Sanitize.RawTrack>): (r: seq<Playlist>)
    ensures |r| == |ps|
    ensures raw.None? || !HasPlaylist(ps, LikedSongs) ==> r == ps
    ensures forall i :: 0 <= i < |ps| && ps[i].name != LikedSongs ==> r[i] == ps[i]
    ensures raw.Some? && HasPlaylist(ps, LikedSongs) ==>
      var t := Sanitize.SanitizeTrack(raw.value);
      var j := FindPlaylist(ps, LikedSongs);
      && r[j] == ToggleIn(ps[j], t)
      && (HasId(r[j].tracks, t.id) <==> !HasId(ps[j].tracks, t.id))
      && forall i :: 0 <= i < |ps| && ps[i].name == LikedSongs ==>
           r[i] == ps[i].(tracks := if HasId(ps[j].tracks, t.id) then RemoveId(ps[i].tracks, t.id) else ps[i].tracks + [t])
  {
    match raw
    case None => ps
    case Some(rt) =>
      var t := Sanitize.SanitizeTrack(rt);
      var j := FindPlaylist(ps, LikedSongs);
      if j == -1 then ps
      else
        var liked := HasId(ps[j].tracks, t.id);
        seq(|ps|, i requires 0 <= i < |ps| =>
          if ps[i].name != LikedSongs then ps[i]
          else if liked then ps[i].(tracks := RemoveId(ps[i].tracks, t.id))
          else ps[i].(tracks := ps[i].tracks + [t]))
  }

  /** Flip the pin of every playlist named `name`; nothing else changes. */
  function PinPlaylist(ps: seq<Playlist>, name: string): (r: seq<Playlist>)
    ensures |r| == |ps|
    ensures forall i :: 0 <= i < |ps| ==> r[i].pinned == (if ps[i].name == name then !ps[i].pinned else ps[i].pinned)
    ensures forall i :: 0 <= i < |ps| ==> r[i].(pinned := ps[i].pinned) == ps[i]
  {
    seq(|ps|, i requires 0 <= i < |ps| => if ps[i].name == name then ps[i].(pinned := !ps[i].pinned) else ps[i])
  }

  /** Pinning twice is no change at all. */
  lemma PinPlaylistInvolution(ps: seq<Playlist>, name: string)
    ensures PinPlaylist(PinPlaylist(ps, name), name) == ps
  {
    var r := PinPlaylist(PinPlaylist(ps, name), name);
    assert forall i :: 0 <= i < |ps| ==> r[i] == ps[i];
  }

  /** `ps.filter(p => p.name !== name)` */
  function DeletePlaylist(ps: seq<Playlist>, name: string): (r: seq<Playlist>)
    ensures !HasPlaylist(r, name)
    ensures forall p :: p in r <==> p in ps && p.name != name
    ensures |r| <= |ps|
    ensures !HasPlaylist(ps, name) ==> r == ps
    decreases |ps|
  {
    if ps == [] then []
    else if ps[0].name == name then DeletePlaylist(ps[1..], name)
    else
      var rest := DeletePlaylist(ps[1..], name);
      assert !HasPlaylist(ps[1..], name) ==> ps == [ps[0]] + ps[1..];
      [ps[0]] + rest
  }

  /** Deleting keeps the surviving playlists in order: it distributes over `+`. */
  lemma {:induction false} DeletePlaylistAppend(a: seq<Playlist>, b: seq<Playlist>, name: string)
    ensures DeletePlaylist(a + b, name) == DeletePlaylist(a, name) + DeletePlaylist(b, name)
    decreases |a|
  {
    if a == [] {
      assert a + b == b;
    } else {
      assert (a + b)[1..] == a[1..] + b;
      DeletePlaylistAppend(a[1..], b, name);
    }
  }

  /** Deleting the same name twice is deleting it once. */
  lemma DeletePlaylistIdempotent(ps: seq<Playlist>, name: string)
    ensures DeletePlaylist(DeletePlaylist(ps, name), name) == DeletePlaylist(ps, name)
  {
  }

  /** `splice(k, 1)` followed by `splice(to, 0, s[k])`: move one element to position `to`. */
  function Move<T>(s: seq<T>, k: nat, to: nat): (r: seq<T>)
    requires k < |s| && to < |s|
    ensures |r| == |s|
    ensures r[to] == s[k]
    ensures RemoveAt(r, to) == RemoveAt(s, k)
  {
    var rest := s[..k] + s[k + 1..];
    var r := rest[..to] + [s[k]] + rest[to..];
    assert r[..to] + r[to + 1..] == rest;
    r
  }

  /** Moving an element permutes the sequence. */
  lemma MovePermutes<T>(s: seq<T>, k: nat, to: nat)
    requires k < |s| && to < |s|
    ensures multiset(Move(s, k, to)) == multiset(s)
  {
    var rest := s[..k] + s[k + 1..];
    calc {
      multiset(s);
      { assert s == s[..k] + ([s[k]] + s[k + 1..]); }
      multiset(s[..k]) + (multiset{s[k]} + multiset(s[k + 1..]));
      multiset(rest) + multiset{s[k]};
      { assert rest == rest[..to] + rest[to..]; }
      multiset(rest[..to]) + multiset{s[k]} + multiset(rest[to..]);
      multiset(rest[..to] + [s[k]] + rest[to..]);
    }
  }

  /** Moving an element onto its own position changes nothing. */
  lemma MoveInPlace<T>(s: seq<T>, k: nat)
    requires k < |s|
    ensures Move(s, k, k) == s
  {
    var rest := s[..k] + s[k + 1..];
    assert rest[..k] == s[..k];
    assert rest[k..] == s[k + 1..];
  }

  /**
   * The index the drop handler takes the dragged playlist from: its first
   * position by name, or, for a name that is not found, the last position,
   * since `splice(-1, 1)` counts from the end.
   */
  function DragSource(ps: seq<Playlist>, dragged: string): (k: nat)
    requires |ps| > 0
    ensures k < |ps|
    ensures HasPlaylist(ps, dragged) ==> k == FindPlaylist(ps, dragged) && ps[k].name == dragged
    ensures !HasPlaylist(ps, dragged) ==> k == |ps| - 1
  {
    var from := FindPlaylist(ps, dragged);
    if from == -1 then |ps| - 1 else from
  }

  /**
   * The drop handler: take the dragged playlist out and insert it at the drop
   * target's original index.
   */
  function DropReorder(ps: seq<Playlist>, dragged: string, target: string): (r: seq<Playlist>)
    requires HasPlaylist(ps, target)
    ensures |r| == |ps|
    ensures multiset(r) == multiset(ps)
    ensures r[FindPlaylist(ps, target)] == ps[DragSource(ps, dragged)]
    ensures RemoveAt(r, FindPlaylist(ps, target)) == RemoveAt(ps, DragSource(ps, dragged))
    ensures dragged == target ==> r == ps
  {
    var k := DragSource(ps, dragged);
    var to := FindPlaylist(ps, target);
    MovePermutes(ps, k, to);
    assert dragged == target ==> Move(ps, k, to) == ps by {
      if dragged == target {
        MoveInPlace(ps, k);
      }
    }
    Move(ps, k, to)
  }

  /** Dropping a playlist whose name is unknown moves the last playlist to the target. */
  lemma DropUnknownMovesLast(ps: seq<Playlist>, dragged: string, target: string)
    requires HasPlaylist(ps, target) && !HasPlaylist(ps, dragged)
    ensures DropReorder(ps, dragged, target)[FindPlaylist(ps, target)] == ps[|ps| - 1]
  {
  }

  /** The playlist editor's track selection: select an unselected track, else deselect it. */
  function ToggleTrackSelection(selected: seq<Track>, t: Track): (r: seq<Track>)
    ensures HasId(r, t.id) <==> !HasId(selected, t.id)
    ensures forall u: Track :: u.id != t.id ==> (u in r <==> u in selected)
    ensures HasId(selected, t.id) ==> r == RemoveId(selected, t.id)
    ensures !HasId(selected, t.id) ==> r == selected + [t]
  {
    if HasId(selected, t.id) then RemoveId(selected, t.id)
    else
      assert (selected + [t])[|selected|] == t;
      selected + [t]
  }

  /** Selecting and deselecting an unselected track restores the selection exactly. */
  lemma ToggleTrackSelectionTwice(selected: seq<Track>, t: Track)
    requires !HasId(selected, t.id)
    ensures ToggleTrackSelection(ToggleTrackSelection(selected, t), t) == selected
  {
    RemoveIdAppend(selected, [t], t.id);
    assert RemoveId([t], t.id) == [];
    assert selected + [] == selected;
  }

  /** The Liked Songs playlist created when none exists. */
  const EmptyLikedSongs := Playlist(LikedSongs, "/images/liked-songs.webp", [], false, false)

  /** On load, append an empty Liked Songs playlist unless one exists. */
  function EnsureLikedSongs(ps: seq<Playlist>): (r: seq<Playlist>)
    ensures HasPlaylist(r, LikedSongs)
    ensures |ps| <= |r| <= |ps| + 1 && r[..|ps|] == ps
    ensures HasPlaylist(ps, LikedSongs) ==> r == ps
    ensures !HasPlaylist(ps, LikedSongs) ==> r == ps + [EmptyLikedSongs]
  {
    if HasPlaylist(ps, LikedSongs) then ps
    else
      assert (ps + [EmptyLikedSongs])[|ps|] == EmptyLikedSongs;
      ps + [EmptyLikedSongs]
  }

  /** Loading twice adds nothing the second time. */
  lemma EnsureLikedSongsIdempotent(ps: seq<Playlist>)
    ensures EnsureLikedSongs(EnsureLikedSongs(ps)) == EnsureLikedSongs(ps)
  {
  }

  /** `counts[id] || 0` */
  function CountOf(counts: map<string, nat>, id: string): nat {
    if id in counts then counts[id] else 0
  }

  /** At the end of a track, the current track's listen count goes up by one. */
  function RecordListen(counts: map<string, nat>, current: Option<Track>): (r: map<string, nat>)
    ensures current.None? ==> r == counts
    ensures current.Some? ==> current.value.id in r && r[current.value.id] == CountOf(counts, current.value.id) + 1
    ensures current.Some? ==> r.Keys == counts.Keys + {current.value.id}
    ensures forall id :: id in counts && (current.None? || id != current.value.id) ==> r[id] == counts[id]
  {
    match current
    case None => counts
    case Some(c) => counts[c.id := CountOf(counts, c.id) + 1]
  }

  /** Listen counts never decrease. */
  lemma RecordListenMonotone(counts: map<string, nat>, current: Option<Track>, id: string)
    ensures CountOf(RecordListen(counts, current), id) >= CountOf(counts, id)
  {
  }
}
