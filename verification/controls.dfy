/**
 * The player's small enumerations and button decision tables: the audio
 * quality and repeat-mode cycles, the single-click back/forward rule, the
 * swipe gestures, and the mute toggle with its volume icon.
 */
module Controls {

  import opened Wrappers

  datatype AudioQuality = Max | High | Normal | DataSaver

  /** `['MAX', 'HIGH', 'NORMAL', 'DATA_SAVER']` */
  const QualityOrder: seq<AudioQuality> := [Max, High, Normal, DataSaver]

  /** `order.indexOf(q)` */
  function QualityIndex(q: AudioQuality): (i: nat)
    ensures i < |QualityOrder| && QualityOrder[i] == q
  {
    match q
    case Max => 0
    case High => 1
    case Normal => 2
    case DataSaver => 3
  }

  /** The quality after one press of the quality button. */
  function NextQuality(q: AudioQuality): (r: AudioQuality)
    ensures r != q
    ensures r == (match q
      case Max => High
      case High => Normal
      case Normal => DataSaver
      case DataSaver => Max)
  {
    QualityOrder[(QualityIndex(q) + 1) % |QualityOrder|]
  }

  function IterateQuality(q: AudioQuality, n: nat): AudioQuality
    decreases n
  {
    if n == 0 then q else NextQuality(IterateQuality(q, n - 1))
  }

  /** Four presses return to the starting quality, and fewer never do. */
  lemma QualityCyclePeriod(q: AudioQuality)
    ensures IterateQuality(q, 4) == q
    ensures forall n :: 1 <= n < 4 ==> IterateQuality(q, n) != q
  {
    assert IterateQuality(q, 1) == NextQuality(q);
    assert IterateQuality(q, 2) == NextQuality(NextQuality(q));
    assert IterateQuality(q, 3) == NextQuality(NextQuality(NextQuality(q)));
  }

  /** Every quality is reached from any starting quality within three presses. */
  lemma QualityCycleVisitsAll(q: AudioQuality, target: AudioQuality)
    ensures exists n :: 0 <= n < 4 && IterateQuality(q, n) == target
  {
    assert IterateQuality(q, 1) == NextQuality(q);
    assert IterateQuality(q, 2) == NextQuality(NextQuality(q));
    assert IterateQuality(q, 3) == NextQuality(NextQuality(NextQuality(q)));
  }

  datatype RepeatMode = Off | All | One

  /** `["off", "all", "one"]` */
  const RepeatOrder: seq<RepeatMode> := [Off, All, One]

  function RepeatIndex(m: RepeatMode): (i: nat)
    ensures i < |RepeatOrder| && RepeatOrder[i] == m
  {
    match m
    case Off => 0
    case All => 1
    case One => 2
  }

  /** The mode after one press of the repeat button. */
  function NextRepeat(m: RepeatMode): (r: RepeatMode)
    ensures r != m
  {
    RepeatOrder[(RepeatIndex(m) + 1) % |RepeatOrder|]
  }

  function IterateRepeat(m: RepeatMode, n: nat): RepeatMode
    decreases n
  {
    if n == 0 then m else NextRepeat(IterateRepeat(m, n - 1))
  }

  /** The repeat button cycles off, all, one: three presses restore the mode. */
  lemma RepeatCyclePeriod(m: RepeatMode)
    ensures NextRepeat(Off) == All && NextRepeat(All) == One && NextRepeat(One) == Off
    ensures IterateRepeat(m, 3) == m
    ensures forall n :: 1 <= n < 3 ==> IterateRepeat(m, n) != m
  {
    assert IterateRepeat(m, 1) == NextRepeat(m);
    assert IterateRepeat(m, 2) == NextRepeat(NextRepeat(m));
  }

  /** Seconds from either end of the track inside which a click changes track. */
  const ClickThreshold: real := 5.0

  datatype BackAction = SeekToStart | GoPrevious

  /** A single click on "back": restart the track unless it has barely begun. */
  function BackClick(seekPosition: real): (a: BackAction)
    ensures a == SeekToStart <==> seekPosition > ClickThreshold
    ensures a == GoPrevious <==> seekPosition <= ClickThreshold
  {
    if seekPosition > ClickThreshold then SeekToStart else GoPrevious
  }

  datatype ForwardAction = GoSkip | SeekTo(target: real)

  /** A single click on "forward": skip near the end, otherwise jump to the end. */
  function ForwardClick(seekPosition: real, duration: real): (a: ForwardAction)
    ensures a == GoSkip <==> duration - seekPosition <= ClickThreshold
    ensures a != GoSkip ==> a == SeekTo(duration)
  {
    var timeLeft := duration - seekPosition;
    if timeLeft <= ClickThreshold then GoSkip else SeekTo(duration)
  }

  /** In a track longer than ten seconds, back and forward never both change track. */
  lemma ClicksNeverBothChangeTrack(seekPosition: real, duration: real)
    requires duration > 2.0 * ClickThreshold
    ensures BackClick(seekPosition) == SeekToStart || ForwardClick(seekPosition, duration).SeekTo?
  {
  }

  /** Horizontal drag distance, in pixels, beyond which a swipe changes track. */
  const SwipeThreshold: real := 100.0

  datatype SwipeAction = SwipePrevious | SwipeSkip | SnapBack

  /** A horizontal drag of the player: right goes back, left goes forward. */
  function Swipe(offsetX: real): (a: SwipeAction)
    ensures a == SwipePrevious <==> offsetX > SwipeThreshold
    ensures a == SwipeSkip <==> offsetX < -SwipeThreshold
    ensures a == SnapBack <==> -SwipeThreshold <= offsetX <= SwipeThreshold
  {
    if offsetX > SwipeThreshold then SwipePrevious
    else if offsetX < -SwipeThreshold then SwipeSkip
    else SnapBack
  }

  /** Mirror-image drags have mirror-image effects. */
  lemma SwipeSymmetric(offsetX: real)
    ensures Swipe(offsetX) == SwipePrevious <==> Swipe(-offsetX) == SwipeSkip
    ensures Swipe(offsetX) == SnapBack <==> Swipe(-offsetX) == SnapBack
  {
  }

  /** Upward travel, in pixels, that expands the mini-player. */
  const ExpandThreshold: real := 50.0

  /** A touch move on the mini-player expands it once it has risen far enough. */
  function ExpandsMiniPlayer(touchStartY: Option<real>, touchY: real): (b: bool)
    ensures b <==> touchStartY.Some? && touchStartY.value - touchY > ExpandThreshold
  {
    match touchStartY
    case Some(y0) => y0 - touchY > ExpandThreshold
    case None => false
  }

  predicate IsMuted(volume: real) {
    volume == 0.0
  }

  /** The mute button: a muted player goes to full volume, any other is muted. */
  function ToggleMute(volume: real): (r: real)
    ensures IsMuted(r) <==> !IsMuted(volume)
    ensures r == 0.0 || r == 1.0
  {
    if IsMuted(volume) then 1.0 else 0.0
  }

  /** Pressing mute twice ends muted exactly when it started muted. */
  lemma ToggleMuteTwice(volume: real)
    ensures IsMuted(ToggleMute(ToggleMute(volume))) <==> IsMuted(volume)
    ensures IsMuted(volume) ==> ToggleMute(ToggleMute(volume)) == volume
  {
  }

  datatype VolumeLevel = Muted | Low | Loud

  /** The volume icon: muted at 0, a low icon below one half, else a loud icon. */
  function VolumeIcon(volume: real): (l: VolumeLevel)
    ensures l == Muted <==> IsMuted(volume)
    ensures l == Low <==> !IsMuted(volume) && volume < 0.5
    ensures l == Loud <==> !IsMuted(volume) && volume >= 0.5
  {
    if IsMuted(volume) then Muted
    else if volume < 0.5 then Low
    else Loud
  }

  /** After the mute button the icon is never the low-volume one. */
  lemma ToggleMuteIcon(volume: real)
    ensures VolumeIcon(ToggleMute(volume)) != Low
    ensures VolumeIcon(ToggleMute(volume)) == Muted <==> VolumeIcon(volume) != Muted
  {
  }
}
