/**
 * The queue, history and current-track logic of the second player variant
 * (components/index.tsx). Navigation is guarded: skipping needs a current
 * track and a next queue entry, stepping back needs history, and both need
 * the audio element. `playTrack` records the replaced track in the history,
 * and the end-of-track handler is a clean switch on the repeat mode.
 */
module GuardedQueue {

  import opened Wrappers
  import opened Tracks
  import opened Controls

  /** What an operation asks of the playback engine besides the state change. */
  datatype Effect =
    | NoEffect
    | Alert            // the "cannot skip / cannot go back" notice; nothing changes
    | Load(track: Track)
    | Restart          // seek to 0 and keep playing the same track
    | Stop             // pause; the finished track stays current
    | LoadMissing      // asks to load `queue[0]` of an empty queue

  datatype Step = Step(player: Player, effect: Effect)

  /** Play `t`: the replaced track goes onto the history, `t` heads the queue. */
  function PlayTrack(s: Player, t: Track): (r: Step)
    ensures r.player.current == Some(t)
    ensures r.player.history == PushCurrent(s)
    ensures |r.player.queue| >= 1 && r.player.queue[0] == t
    ensures forall k :: 1 <= k < |r.player.queue| ==> r.player.queue[k].id != t.id
    ensures r.player.queue[1..] == RemoveId(s.queue, t.id)
    ensures UniqueIds(s.queue) ==> UniqueIds(r.player.queue)
    ensures r.effect == Load(t)
  {
    Step(Player(MoveToFront(s.queue, t), PushCurrent(s), Some(t)), Load(t))
  }

  /** Step back to the most recent history entry, if there is one. */
  function PreviousTrack(s: Player, hasAudio: bool): (r: Step)
    ensures s.history == [] || !hasAudio ==> r == Step(s, Alert)
    ensures s.history != [] && hasAudio ==>
      && r.player.current == Some(s.history[0])
      && r.player.history == s.history[1..]
      && |r.player.queue| >= 1 && r.player.queue[0] == s.history[0]
      && r.player.queue[1..] == RemoveId(s.queue, s.history[0].id)
      && r.effect == Load(s.history[0])
    ensures UniqueIds(s.queue) ==> UniqueIds(r.player.queue)
  {
    if |s.history| == 0 || !hasAudio then Step(s, Alert)
    else
      var last := s.history[0];
      Step(Player(MoveToFront(s.queue, last), s.history[1..], Some(last)), Load(last))
  }

  /** Whether `SkipTrack` may advance. */
  predicate CanSkip(s: Player, hasAudio: bool) {
    s.current.Some? && |s.queue| > 1 && hasAudio
  }

  /**
   * Skip forward: the current track goes onto the history, the queue head is
   * dropped and the new head plays. Without a next track it only alerts.
   */
  function SkipTrack(s: Player, hasAudio: bool): (r: Step)
    ensures !CanSkip(s, hasAudio) ==> r == Step(s, Alert)
    ensures CanSkip(s, hasAudio) ==>
      && r.player.history == [s.current.value] + s.history
      && |r.player.queue| == |s.queue| - 1
      && r.player.queue == s.queue[1..]
      && r.player.current == Some(r.player.queue[0])
      && r.effect == Load(r.player.queue[0])
    ensures UniqueIds(s.queue) ==> UniqueIds(r.player.queue)
  {
    if !CanSkip(s, hasAudio) then Step(s, Alert)
    else
      var rest := s.queue[1..];
      Step(Player(rest, [s.current.value] + s.history, Some(rest[0])), Load(rest[0]))
  }

  /** Skipping and then stepping back restores the state when the current track heads the queue. */
  lemma SkipThenPrevious(s: Player)
    requires UniqueIds(s.queue)
    requires s.current.Some? && |s.queue| > 1 && s.queue[0] == s.current.value
    ensures PreviousTrack(SkipTrack(s, true).player, true).player == s
  {
    var c := s.current.value;
    assert s.queue == [c] + s.queue[1..];
    assert !HasId(s.queue[1..], c.id);
  }

  /** `queue.findIndex(t => t.id === current.id) === queue.length - 1`, as written. */
  function IsLastTrackAsWritten(q: seq<Track>, c: Track): (b: bool)
    ensures |q| > 0 ==> (b <==> q[|q| - 1].id == c.id && !HasId(q[..|q| - 1], c.id))
    ensures |q| == 0 ==> b
  {
    FindIndexById(q, c.id) == |q| - 1
  }

  /** The intended test: the current track is found, and found last. */
  function IsLastTrack(q: seq<Track>, c: Track): (b: bool)
    ensures b <==> |q| > 0 && q[|q| - 1].id == c.id && !HasId(q[..|q| - 1], c.id)
  {
    var i := FindIndexById(q, c.id);
    assert |q| > 0 && q[|q| - 1].id == c.id ==> HasId(q, c.id);
    i != -1 && i == |q| - 1
  }

  /**
   * The end-of-track handler as the source writes it. With repeat "all" and an
   * empty queue, `findIndex` yields -1, which equals `queue.length - 1`, so the
   * handler makes `queue[0]` (a missing track) current.
   */
  function HandleTrackEndAsWritten(s: Player, mode: RepeatMode, hasAudio: bool): (r: Step)
    ensures s.current.None? || !hasAudio ==> r == Step(s, NoEffect)
    ensures s.current.Some? && hasAudio && mode == All && s.queue == [] ==>
      r == Step(s.(current := None), LoadMissing)
  {
    if s.current.None? || !hasAudio then Step(s, NoEffect)
    else
      match mode
      case One => Step(s, Restart)
      case All =>
        if IsLastTrackAsWritten(s.queue, s.current.value) then
          if |s.queue| > 0 then Step(s.(current := Some(s.queue[0])), Load(s.queue[0]))
          else Step(s.(current := None), LoadMissing)
        else SkipTrack(s, hasAudio)
      case Off =>
        if |s.queue| > 1 then SkipTrack(s, hasAudio) else Step(s, Stop)
  }

  /**
   * A track ending in repeat-all mode after its queue was emptied loses the
   * current track, where skipping would only have alerted.
   */
  lemma EmptyQueueWrapLosesCurrent(c: Track, history: seq<Track>)
    ensures HandleTrackEndAsWritten(Player([], history, Some(c)), All, true).player.current == None
    ensures HandleTrackEnd(Player([], history, Some(c)), All, true) == Step(Player([], history, Some(c)), Alert)
  {
  }

  /**
   * The end-of-track decision table, with the last-track test corrected:
   * repeat one restarts, repeat all wraps from the last queued track to the
   * first, and otherwise the handler skips when it can or stops.
   */
  function HandleTrackEnd(s: Player, mode: RepeatMode, hasAudio: bool): (r: Step)
    ensures s.current.None? || !hasAudio ==> r == Step(s, NoEffect)
    ensures s.current.Some? && hasAudio && mode == One ==> r == Step(s, Restart)
    ensures s.current.Some? && hasAudio && mode == All && IsLastTrack(s.queue, s.current.value) ==>
      r == Step(s.(current := Some(s.queue[0])), Load(s.queue[0]))
    ensures s.current.Some? && hasAudio && mode == All && !IsLastTrack(s.queue, s.current.value) ==>
      r == SkipTrack(s, hasAudio)
    ensures s.current.Some? && hasAudio && mode == Off && |s.queue| <= 1 ==> r == Step(s, Stop)
    ensures s.current.Some? && hasAudio && mode == Off && |s.queue| > 1 ==> r == SkipTrack(s, hasAudio)
    ensures r.player.queue == s.queue || r.player.queue == s.queue[1..]
    ensures r.player.current.Some? || s.current.None?
  {
    if s.current.None? || !hasAudio then Step(s, NoEffect)
    else
      match mode
      case One => Step(s, Restart)
      case All =>
        if IsLastTrack(s.queue, s.current.value) then
          Step(s.(current := Some(s.queue[0])), Load(s.queue[0]))
        else SkipTrack(s, hasAudio)
      case Off =>
        if |s.queue| > 1 then SkipTrack(s, hasAudio) else Step(s, Stop)
  }

  /** The correction changes only the empty-queue repeat-all case. */
  lemma HandleTrackEndAgreesOnNonEmptyQueue(s: Player, mode: RepeatMode, hasAudio: bool)
    requires |s.queue| > 0
    ensures HandleTrackEnd(s, mode, hasAudio) == HandleTrackEndAsWritten(s, mode, hasAudio)
  {
  }

  /** A natural end never removes the current track and never grows the queue. */
  lemma HandleTrackEndKeepsHistoryShape(s: Player, mode: RepeatMode, hasAudio: bool)
    ensures var r := HandleTrackEnd(s, mode, hasAudio).player;
      r.history == s.history || r.history == PushCurrent(s)
    ensures |HandleTrackEnd(s, mode, hasAudio).player.queue| <= |s.queue|
  {
  }

  /** Queue `A, B, C` with repeat off: the end of `A` moves it to history and plays `B`. */
  lemma EndOfFirstOfThree(a: Track, b: Track, c: Track)
    ensures HandleTrackEnd(Player([a, b, c], [], Some(a)), Off, true)
      == Step(Player([b, c], [a], Some(b)), Load(b))
  {
    assert [a, b, c][1..] == [b, c];
  }

  /** Queue `A` with repeat off: the end of `A` stops playback and keeps `A` current. */
  lemma EndOfOnlyTrack(a: Track)
    ensures HandleTrackEnd(Player([a], [], Some(a)), Off, true) == Step(Player([a], [], Some(a)), Stop)
  {
  }

  /**
   * Click on queue entry `idx` (`idx >= 0`) or on history entry `-idx - 1`
   * (`idx < 0`), as the source writes it; the clicked track becomes current. A
   * history click removes that one entry and puts the track at the head of the
   * queue without removing a queued entry with the same id; a queue click
   * pushes the old current track onto the history and removes the entry.
   */
  function OnQueueItemClickAsWritten(s: Player, t: Track, idx: int): (r: Player)
    ensures r.current == Some(t)
    ensures idx < 0 ==> r.history == RemoveAt(s.history, -idx - 1) && r.queue == [t] + s.queue
    ensures idx < 0 && -idx - 1 < |s.history| ==> |r.history| == |s.history| - 1
    ensures idx >= 0 ==> r.history == PushCurrent(s) && r.queue == RemoveAt(s.queue, idx)
    ensures idx >= 0 && idx < |s.queue| ==> |r.queue| == |s.queue| - 1
  {
    if idx < 0 then
      Player([t] + s.queue, RemoveAt(s.history, -idx - 1), Some(t))
    else
      Player(RemoveAt(s.queue, idx), PushCurrent(s), Some(t))
  }

  /**
   * History `A`, queue `B` playing `B`: queueing `A` and then clicking it in the
   * history leaves `A` in the queue twice.
   */
  lemma HistoryClickDuplicates(a: Track, b: Track)
    requires a.id != b.id
    ensures var s := AddToQueue(Player([b], [a], Some(b)), [a]);
      && s.queue == [b, a]
      && UniqueIds(s.queue)
      && OnQueueItemClickAsWritten(s, a, -1).queue == [a, b, a]
      && !UniqueIds(OnQueueItemClickAsWritten(s, a, -1).queue)
  {
    assert !HasId([b], a.id);
    var s := AddToQueue(Player([b], [a], Some(b)), [a]);
    assert [a] + [b, a] == [a, b, a];
    assert [a, b, a][0].id == [a, b, a][2].id;
  }

  /**
   * The click with the history case corrected as `previousTrackFunc` does it:
   * the clicked track moves to the head of the queue, and any queued entry with
   * its id is dropped. A queue click is unchanged.
   */
  function OnQueueItemClick(s: Player, t: Track, idx: int): (r: Player)
    ensures r.current == Some(t)
    ensures idx < 0 ==>
      && r.history == RemoveAt(s.history, -idx - 1)
      && |r.queue| >= 1 && r.queue[0] == t
      && r.queue[1..] == RemoveId(s.queue, t.id)
    ensures idx < 0 && -idx - 1 < |s.history| ==> |r.history| == |s.history| - 1
    ensures idx >= 0 ==> r.history == PushCurrent(s) && r.queue == RemoveAt(s.queue, idx)
    ensures idx >= 0 && idx < |s.queue| ==> |r.queue| == |s.queue| - 1
    ensures UniqueIds(s.queue) ==> UniqueIds(r.queue)
  {
    if idx < 0 then
      Player(MoveToFront(s.queue, t), RemoveAt(s.history, -idx - 1), Some(t))
    else
      assert UniqueIds(s.queue) ==> UniqueIds(RemoveAt(s.queue, idx)) by {
        if UniqueIds(s.queue) {
          RemoveAtUnique(s.queue, idx);
        }
      }
      Player(RemoveAt(s.queue, idx), PushCurrent(s), Some(t))
  }

  /** The correction changes nothing unless the clicked history track is also queued. */
  lemma OnQueueItemClickAgrees(s: Player, t: Track, idx: int)
    ensures !HasId(s.queue, t.id) ==> OnQueueItemClick(s, t, idx) == OnQueueItemClickAsWritten(s, t, idx)
    ensures idx >= 0 ==> OnQueueItemClick(s, t, idx) == OnQueueItemClickAsWritten(s, t, idx)
  {
  }
}
