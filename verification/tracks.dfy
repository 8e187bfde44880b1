/**
 * Tracks, playlists and the id-keyed list helpers that both player variants
 * build their queue operations from. A track's identity is its `id`; every
 * other field is display metadata.
 */
module Tracks {

  import opened Wrappers

  datatype Artist = Artist(name: string)

  datatype Album = Album(
    title: string,
    coverMedium: string,
    coverSmall: string,
    coverBig: string,
    coverXl: string)

  datatype Track = Track(id: string, title: string, artist: Artist, album: Album)

  /** `pinned` and `downloaded` are optional in the source; absent reads as false. */
  datatype Playlist = Playlist(
    name: string,
    image: string,
    tracks: seq<Track>,
    pinned: bool,
    downloaded: bool)

  /**
   * The playback state shared by both player variants: the up-next queue, the
   * history stack (most recent first) and the track now playing, if any.
   */
  datatype Player = Player(queue: seq<Track>, history: seq<Track>, current: Option<Track>)

  /** `currentTrack ? [currentTrack, ...history] : history` */
  function PushCurrent(s: Player): (h: seq<Track>)
    ensures s.current.None? ==> h == s.history
    ensures s.current.Some? ==> |h| == |s.history| + 1 && h[0] == s.current.value && h[1..] == s.history
  {
    match s.current
    case Some(c) => [c] + s.history
    case None => s.history
  }

  /** `s.some(t => t.id === id)` */
  predicate HasId(s: seq<Track>, id: string) {
    exists i :: 0 <= i < |s| && s[i].id == id
  }

  /** No two entries share an id. */
  predicate UniqueIds(s: seq<Track>) {
    forall i, j :: 0 <= i < j < |s| ==> s[i].id != s[j].id
  }

  lemma HasIdOfMember(s: seq<Track>, t: Track)
    requires t in s
    ensures HasId(s, t.id)
  {
    var i :| 0 <= i < |s| && s[i] == t;
  }

  /** `s.filter(t => t.id !== id)` */
  function RemoveId(s: seq<Track>, id: string): (r: seq<Track>)
    ensures !HasId(r, id)
    ensures forall t :: t in r <==> t in s && t.id != id
    ensures |r| <= |s|
    ensures !HasId(s, id) ==> r == s
    decreases |s|
  {
    if s == [] then []
    else if s[0].id == id then RemoveId(s[1..], id)
    else
      var rest := RemoveId(s[1..], id);
      assert !HasId(s[1..], id) ==> s == [s[0]] + s[1..];
      [s[0]] + rest
  }

  /** Removing by id keeps the other entries in their order: it distributes over `+`. */
  lemma {:induction false} RemoveIdAppend(a: seq<Track>, b: seq<Track>, id: string)
    ensures RemoveId(a + b, id) == RemoveId(a, id) + RemoveId(b, id)
    decreases |a|
  {
    if a == [] {
      assert a + b == b;
    } else {
      assert (a + b)[1..] == a[1..] + b;
      RemoveIdAppend(a[1..], b, id);
    }
  }

  /** Removing by id keeps a duplicate-free list duplicate-free. */
  lemma {:induction false} RemoveIdUnique(s: seq<Track>, id: string)
    requires UniqueIds(s)
    ensures UniqueIds(RemoveId(s, id))
    decreases |s|
  {
    if s != [] {
      RemoveIdUnique(s[1..], id);
      if s[0].id != id {
        var rest := RemoveId(s[1..], id);
        forall k | 0 <= k < |rest|
          ensures rest[k].id != s[0].id
        {
          assert rest[k] in s[1..];
          var j :| 0 <= j < |s[1..]| && s[1..][j] == rest[k];
          assert s[j + 1] == rest[k];
        }
      }
    }
  }

  /** In a duplicate-free list, removing a present id removes exactly one entry. */
  lemma {:induction false} RemoveIdLength(s: seq<Track>, id: string)
    requires UniqueIds(s)
    ensures |RemoveId(s, id)| == if HasId(s, id) then |s| - 1 else |s|
    decreases |s|
  {
    if s != [] {
      if s[0].id == id {
        assert !HasId(s[1..], id);
      } else {
        RemoveIdLength(s[1..], id);
        assert HasId(s, id) <==> HasId(s[1..], id) by {
          if HasId(s, id) {
            var j :| 0 <= j < |s| && s[j].id == id;
            assert s[1..][j - 1].id == id;
          }
          if HasId(s[1..], id) {
            var j :| 0 <= j < |s[1..]| && s[1..][j].id == id;
            assert s[j + 1].id == id;
          }
        }
      }
    }
  }

  /** `[t, ...s.filter(x => x.id !== t.id)]`: move or insert `t` at the head. */
  function MoveToFront(s: seq<Track>, t: Track): (r: seq<Track>)
    ensures |r| >= 1 && r[0] == t
    ensures r[1..] == RemoveId(s, t.id)
    ensures forall k :: 1 <= k < |r| ==> r[k].id != t.id
    ensures UniqueIds(s) ==> UniqueIds(r)
  {
    var rest := RemoveId(s, t.id);
    assert UniqueIds(s) ==> UniqueIds(rest) by {
      if UniqueIds(s) {
        RemoveIdUnique(s, t.id);
      }
    }
    assert forall k :: 0 <= k < |rest| ==> rest[k].id != t.id;
    [t] + rest
  }

  /** `s.findIndex(t => t.id === id)` */
  function FindIndexById(s: seq<Track>, id: string): (r: int)
    ensures -1 <= r < |s|
    ensures r == -1 <==> !HasId(s, id)
    ensures r >= 0 ==> s[r].id == id && forall k :: 0 <= k < r ==> s[k].id != id
    decreases |s|
  {
    if s == [] then -1
    else if s[0].id == id then 0
    else
      var k := FindIndexById(s[1..], id);
      if k == -1 then -1 else k + 1
  }

  /** `s.filter((_, k) => k !== i)`: drop position `i`, if there is one. */
  function RemoveAt<T>(s: seq<T>, i: int): (r: seq<T>)
    ensures 0 <= i < |s| ==> |r| == |s| - 1
    ensures 0 <= i < |s| ==> forall k :: 0 <= k < |r| ==> r[k] == (if k < i then s[k] else s[k + 1])
    ensures !(0 <= i < |s|) ==> r == s
  {
    if 0 <= i < |s| then s[..i] + s[i + 1..] else s
  }

  lemma RemoveAtUnique(s: seq<Track>, i: int)
    requires UniqueIds(s)
    ensures UniqueIds(RemoveAt(s, i))
  {
    var r := RemoveAt(s, i);
    if 0 <= i < |s| {
      forall a, b | 0 <= a < b < |r|
        ensures r[a].id != r[b].id
      {
        var a' := if a < i then a else a + 1;
        var b' := if b < i then b else b + 1;
        assert r[a] == s[a'] && r[b] == s[b'];
      }
    }
  }

  /** The tracks of `ts` whose id is not in `q`, in input order. */
  function NotIn(q: seq<Track>, ts: seq<Track>): (r: seq<Track>)
    ensures |r| <= |ts|
    ensures forall t :: t in r <==> t in ts && !HasId(q, t.id)
    decreases |ts|
  {
    if ts == [] then []
    else if HasId(q, ts[0].id) then NotIn(q, ts[1..])
    else [ts[0]] + NotIn(q, ts[1..])
  }

  lemma {:induction false} NotInAppend(q: seq<Track>, a: seq<Track>, b: seq<Track>)
    ensures NotIn(q, a + b) == NotIn(q, a) + NotIn(q, b)
    decreases |a|
  {
    if a == [] {
      assert a + b == b;
    } else {
      assert (a + b)[1..] == a[1..] + b;
      NotInAppend(q, a[1..], b);
    }
  }

  /**
   * `[...q, ...ts.filter(t => !q.some(x => x.id === t.id))]`, the queue append of
   * both variants. Incoming tracks are checked against the old queue only.
   */
  function AppendNew(q: seq<Track>, ts: seq<Track>): (r: seq<Track>)
    ensures |q| <= |r| <= |q| + |ts|
    ensures r[..|q|] == q
    ensures r[|q|..] == NotIn(q, ts)
    ensures forall t :: t in r[|q|..] <==> t in ts && !HasId(q, t.id)
  {
    q + NotIn(q, ts)
  }

  /**
   * Adding `X` twice in one batch to a queue without `X` yields two entries with
   * the same id: the batch is not de-duplicated against itself.
   */
  lemma AppendNewBatchDuplicate(x: Track)
    ensures !UniqueIds(AppendNew([], [x, x]))
  {
    assert NotIn([], [x, x]) == [x, x] by {
      assert !HasId([], x.id);
      assert [x, x][1..] == [x];
      assert [x][1..] == [];
    }
    assert AppendNew([], [x, x]) == [x, x];
  }

  /**
   * The evidently intended append: the tracks are added one at a time, each
   * skipped if its id is already present in the queue built so far.
   */
  function AppendNewDistinct(q: seq<Track>, ts: seq<Track>): (r: seq<Track>)
    ensures |q| <= |r| <= |q| + |ts|
    ensures r[..|q|] == q
    ensures forall t :: t in r[|q|..] ==> t in ts && !HasId(q, t.id)
    ensures ts == [] ==> r == q
    ensures |ts| == 1 ==> r == if HasId(q, ts[0].id) then q else q + [ts[0]]
    decreases |ts|
  {
    if ts == [] then q
    else
      var q' := if HasId(q, ts[0].id) then q else q + [ts[0]];
      var r := AppendNewDistinct(q', ts[1..]);
      assert r[..|q|] == r[..|q'|][..|q|];
      assert r[|q|..] == q'[|q|..] + r[|q'|..];
      r
  }

  /**
   * Appending a batch is appending its first part and then its second: the
   * tracks are taken in input order.
   */
  lemma {:induction false} AppendNewDistinctSplit(q: seq<Track>, a: seq<Track>, b: seq<Track>)
    ensures AppendNewDistinct(q, a + b) == AppendNewDistinct(AppendNewDistinct(q, a), b)
    decreases |a|
  {
    if a == [] {
      assert a + b == b;
    } else {
      assert (a + b)[0] == a[0];
      assert (a + b)[1..] == a[1..] + b;
      var q' := if HasId(q, a[0].id) then q else q + [a[0]];
      AppendNewDistinctSplit(q', a[1..], b);
    }
  }

  /** A track whose id occurs nowhere in `u` does not change which tracks of `u` are new. */
  lemma {:induction false} NotInSkipsFresh(q: seq<Track>, t: Track, u: seq<Track>)
    requires !HasId(u, t.id)
    ensures NotIn(q + [t], u) == NotIn(q, u)
    decreases |u|
  {
    if u != [] {
      assert HasId(q + [t], u[0].id) <==> HasId(q, u[0].id) by {
        if HasId(q + [t], u[0].id) {
          var k :| 0 <= k < |q + [t]| && (q + [t])[k].id == u[0].id;
          assert k < |q| && q[k].id == u[0].id;
        }
        if HasId(q, u[0].id) {
          var k :| 0 <= k < |q| && q[k].id == u[0].id;
          assert (q + [t])[k].id == u[0].id;
        }
      }
      NotInSkipsFresh(q, t, u[1..]);
    }
  }

  /** The tail of a duplicate-free list is duplicate-free and lacks the head's id. */
  lemma UniqueIdsTail(ts: seq<Track>)
    requires ts != [] && UniqueIds(ts)
    ensures UniqueIds(ts[1..]) && !HasId(ts[1..], ts[0].id)
  {
    var rest := ts[1..];
    forall i, j | 0 <= i < j < |rest|
      ensures rest[i].id != rest[j].id
    {
      assert rest[i] == ts[i + 1] && rest[j] == ts[j + 1];
    }
  }

  /**
   * On a batch without repeated ids the correction changes nothing: it is the
   * source's append. Every call in the source passes a single track.
   */
  lemma {:induction false} AppendNewDistinctAgrees(q: seq<Track>, ts: seq<Track>)
    requires UniqueIds(ts)
    ensures AppendNewDistinct(q, ts) == AppendNew(q, ts)
    decreases |ts|
  {
    if ts != [] {
      var t, rest := ts[0], ts[1..];
      UniqueIdsTail(ts);
      var q' := if HasId(q, t.id) then q else q + [t];
      assert AppendNewDistinct(q, ts) == AppendNewDistinct(q', rest);
      AppendNewDistinctAgrees(q', rest);
      if HasId(q, t.id) {
        assert NotIn(q, ts) == NotIn(q, rest);
      } else {
        NotInSkipsFresh(q, t, rest);
        assert NotIn(q, ts) == [t] + NotIn(q, rest);
        assert q' + NotIn(q', rest) == q + NotIn(q, ts);
      }
    }
  }

  /** Appending one track that is not yet present keeps the ids distinct. */
  lemma AppendFreshUnique(q: seq<Track>, t: Track)
    requires UniqueIds(q) && !HasId(q, t.id)
    ensures UniqueIds(q + [t])
  {
    var q' := q + [t];
    forall a, b | 0 <= a < b < |q'|
      ensures q'[a].id != q'[b].id
    {
      if b == |q| {
        assert q[a].id != t.id;
      }
    }
  }

  /**
   * The corrected append keeps a duplicate-free queue duplicate-free, and
   * afterwards every incoming track's id is present.
   */
  lemma {:induction false} AppendNewDistinctUnique(q: seq<Track>, ts: seq<Track>)
    ensures UniqueIds(q) ==> UniqueIds(AppendNewDistinct(q, ts))
    ensures forall t :: t in ts ==> HasId(AppendNewDistinct(q, ts), t.id)
    decreases |ts|
  {
    if ts != [] {
      var t := ts[0];
      var q' := if HasId(q, t.id) then q else q + [t];
      if UniqueIds(q) && !HasId(q, t.id) {
        AppendFreshUnique(q, t);
      }
      AppendNewDistinctUnique(q', ts[1..]);
      var r := AppendNewDistinct(q, ts);
      assert r == AppendNewDistinct(q', ts[1..]);
      assert HasId(q', t.id) by {
        if !HasId(q, t.id) {
          assert q'[|q|] == t;
        }
      }
      var j :| 0 <= j < |q'| && q'[j].id == t.id;
      assert r[..|q'|] == q';
      assert r[j] == q'[j];
      forall u | u in ts
        ensures HasId(r, u.id)
      {
        if u != t {
          var k :| 0 <= k < |ts| && ts[k] == u;
          assert ts[1..][k - 1] == u;
        }
      }
    }
  }

  /**
   * `addToQueue`, shared by both variants, with the batch correction: the
   * incoming tracks whose id is not queued yet are appended one at a time, so
   * a batch repeating an id adds it once. The old queue stays a prefix and
   * nothing else changes.
   */
  function AddToQueue(s: Player, ts: seq<Track>): (r: Player)
    ensures |s.queue| <= |r.queue| <= |s.queue| + |ts|
    ensures r.queue[..|s.queue|] == s.queue
    ensures forall t :: t in r.queue[|s.queue|..] ==> t in ts && !HasId(s.queue, t.id)
    ensures forall t :: t in ts ==> HasId(r.queue, t.id)
    ensures UniqueIds(s.queue) ==> UniqueIds(r.queue)
    ensures UniqueIds(ts) ==> r.queue == AppendNew(s.queue, ts)
    ensures |ts| == 1 ==> r.queue == if HasId(s.queue, ts[0].id) then s.queue else s.queue + [ts[0]]
    ensures r.history == s.history && r.current == s.current
  {
    AppendNewDistinctUnique(s.queue, ts);
    assert UniqueIds(ts) ==> AppendNewDistinct(s.queue, ts) == AppendNew(s.queue, ts) by {
      if UniqueIds(ts) {
        AppendNewDistinctAgrees(s.queue, ts);
      }
    }
    s.(queue := AppendNewDistinct(s.queue, ts))
  }

  /** Queueing a batch is queueing its first part and then the rest, in input order. */
  lemma AddToQueueSplit(s: Player, a: seq<Track>, b: seq<Track>)
    ensures AddToQueue(s, a + b) == AddToQueue(AddToQueue(s, a), b)
  {
    AppendNewDistinctSplit(s.queue, a, b);
  }

  /** `removeFromQueue`, shared by both variants: drop queue position `i`; any other index changes nothing. */
  function RemoveFromQueue(s: Player, i: int): (r: Player)
    ensures 0 <= i < |s.queue| ==> |r.queue| == |s.queue| - 1
    ensures 0 <= i < |s.queue| ==> forall k :: 0 <= k < |r.queue| ==>
      r.queue[k] == (if k < i then s.queue[k] else s.queue[k + 1])
    ensures !(0 <= i < |s.queue|) ==> r.queue == s.queue
    ensures UniqueIds(s.queue) ==> UniqueIds(r.queue)
    ensures r.history == s.history && r.current == s.current
  {
    assert UniqueIds(s.queue) ==> UniqueIds(RemoveAt(s.queue, i)) by {
      if UniqueIds(s.queue) {
        RemoveAtUnique(s.queue, i);
      }
    }
    s.(queue := RemoveAt(s.queue, i))
  }
}
