/**
 * The queue, history and current-track logic of the first player variant
 * (SpotifyClone/index.tsx). Operations are unguarded: `playTrack` does not
 * record history, `skipTrack` records history even when the queue cannot
 * advance, and a click on a history item truncates the history.
 * By convention the current track sits at the head of the queue.
 */
module CloneQueue {

  import opened Wrappers
  import opened Tracks

  /** The head-of-queue convention, with the queue free of duplicate ids. */
  predicate HeadIsCurrent(s: Player) {
    && UniqueIds(s.queue)
    && (s.current.Some? ==> |s.queue| > 0 && s.queue[0] == s.current.value)
  }

  /** Play `t` now: move it to the head of the queue; history is left alone. */
  function PlayTrack(s: Player, t: Track): (r: Player)
    ensures r.current == Some(t)
    ensures |r.queue| >= 1 && r.queue[0] == t
    ensures forall k :: 1 <= k < |r.queue| ==> r.queue[k].id != t.id
    ensures r.queue[1..] == RemoveId(s.queue, t.id)
    ensures r.history == s.history
    ensures HeadIsCurrent(s) ==> HeadIsCurrent(r)
  {
    Player(MoveToFront(s.queue, t), s.history, Some(t))
  }

  /** Playing the same track twice is the same as playing it once. */
  lemma PlayTrackIdempotent(s: Player, t: Track)
    ensures PlayTrack(PlayTrack(s, t), t) == PlayTrack(s, t)
  {
    var q := PlayTrack(s, t).queue;
    assert q == [t] + q[1..];
    assert !HasId(q[1..], t.id);
    RemoveIdAppend([t], q[1..], t.id);
    assert RemoveId([t], t.id) == [];
  }

  /**
   * Step back: pop the most recent history entry, make it current and move it
   * to the head of the queue. An empty history changes nothing.
   */
  function PreviousTrack(s: Player): (r: Player)
    ensures s.history == [] ==> r == s
    ensures s.history != [] ==>
      && r.current == Some(s.history[0])
      && r.history == s.history[1..]
      && |r.queue| >= 1 && r.queue[0] == s.history[0]
      && r.queue[1..] == RemoveId(s.queue, s.history[0].id)
    ensures HeadIsCurrent(s) ==> HeadIsCurrent(r)
  {
    if |s.history| == 0 then s
    else
      var last := s.history[0];
      Player(MoveToFront(s.queue, last), s.history[1..], Some(last))
  }

  /**
   * Skip forward: the current track (if any) is pushed onto the history in
   * every case; the queue advances only when it holds more than one track.
   */
  function SkipTrack(s: Player): (r: Player)
    ensures r.history == PushCurrent(s)
    ensures |s.queue| <= 1 ==> r.queue == s.queue && r.current == s.current
    ensures |s.queue| > 1 ==> |r.queue| == |s.queue| - 1 && r.queue == s.queue[1..] && r.current == Some(r.queue[0])
    ensures HeadIsCurrent(s) ==> HeadIsCurrent(r)
  {
    var h := PushCurrent(s);
    if |s.queue| <= 1 then Player(s.queue, h, s.current)
    else Player(s.queue[1..], h, Some(s.queue[1]))
  }

  /** Skipping and then stepping back restores the state, under the head-of-queue convention. */
  lemma SkipThenPrevious(s: Player)
    requires HeadIsCurrent(s)
    requires s.current.Some? && |s.queue| > 1
    ensures PreviousTrack(SkipTrack(s)) == s
  {
    var c := s.current.value;
    assert s.queue == [c] + s.queue[1..];
    assert !HasId(s.queue[1..], c.id);
  }

  /** `Math.abs` */
  function Abs(x: int): (r: nat)
    ensures r == x || r == -x
  {
    if x < 0 then -x else x
  }

  /**
   * Click on a queue item (`idx >= 0`) or on history entry `-idx - 1`
   * (`idx < 0`). The clicked track becomes current and the queue is untouched;
   * a history click keeps only the entries more recent than the clicked one.
   */
  function OnQueueItemClick(s: Player, t: Track, idx: int): (r: Player)
    ensures r.current == Some(t)
    ensures r.queue == s.queue
    ensures idx >= 0 ==> r.history == s.history
    ensures idx < 0 ==> |r.history| <= |s.history| && r.history == s.history[..|r.history|]
    ensures idx < 0 && -idx - 1 < |s.history| ==> |r.history| == -idx - 1
    ensures idx < 0 && -idx - 1 >= |s.history| ==> r.history == s.history
  {
    if idx < 0 then
      var k := Abs(idx + 1);
      Player(s.queue, s.history[..if k <= |s.history| then k else |s.history|], Some(t))
    else
      s.(current := Some(t))
  }

  /**
   * The effect that runs whenever the current track changes: a current track
   * that is not queued is put at the head of the queue.
   */
  function SyncQueueWithCurrent(s: Player): (r: Player)
    ensures s.current.Some? ==> HasId(r.queue, s.current.value.id)
    ensures s.current.None? || HasId(s.queue, s.current.value.id) ==> r == s
    ensures s.current.Some? && !HasId(s.queue, s.current.value.id) ==> r.queue == [s.current.value] + s.queue
    ensures r.history == s.history && r.current == s.current
  {
    match s.current
    case Some(c) =>
      if HasId(s.queue, c.id) then s
      else
        var q := MoveToFront(s.queue, c);
        assert q[0] == c;
        s.(queue := q)
    case None => s
  }

  /** After a history click, the effect puts the clicked track in the queue. */
  lemma ClickThenSyncQueuesTrack(s: Player, t: Track, idx: int)
    ensures HasId(SyncQueueWithCurrent(OnQueueItemClick(s, t, idx)).queue, t.id)
    ensures SyncQueueWithCurrent(OnQueueItemClick(s, t, idx)).current == Some(t)
  {
  }
}
