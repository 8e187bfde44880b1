/**
 * The two seekbars: the cursor-to-progress clamp, the progress ratio each
 * player feeds in, and the drag gesture that ends in a seek. Progress values
 * are JavaScript numbers, so a zero-width bar or a zero duration can make them
 * NaN or infinite; the mobile bar replaces NaN by 0 where its code does.
 */
module Seekbar {

  import opened Wrappers
  import opened JsNumber

  /**
   * `calculateProgress(clientX)`: 0 while the bar is not mounted, otherwise
   * the cursor's offset as a fraction of the bar's width, clamped to [0, 1].
   * Both players write the clamp as `Math.max(0, Math.min(1, ratio))`.
   */
  function CalculateProgress(mounted: bool, clientX: real, left: real, width: real): (r: Num)
    ensures !mounted ==> r == Finite(0.0)
    ensures r.IsNaN() <==> mounted && clientX == left && width == 0.0
    ensures !r.IsNaN() ==> r.Finite? && 0.0 <= r.v <= 1.0
    ensures mounted && width > 0.0 && left <= clientX <= left + width ==> r == Finite((clientX - left) / width)
    ensures mounted && width > 0.0 && clientX <= left ==> r == Finite(0.0)
    ensures mounted && width > 0.0 && clientX >= left + width ==> r == Finite(1.0)
  {
    if !mounted then Finite(0.0)
    else
      var ratio := Div(clientX - left, width);
      assert width > 0.0 && left <= clientX <= left + width ==> 0.0 <= (clientX - left) / width <= 1.0 by {
        if width > 0.0 && left <= clientX <= left + width {
          RatioInUnit(clientX - left, width);
        }
      }
      ClampOrderIrrelevant(ratio);
      Max(Finite(0.0), Min(Finite(1.0), ratio))
  }

  lemma RatioInUnit(a: real, w: real)
    requires w > 0.0 && 0.0 <= a <= w
    ensures 0.0 <= a / w <= 1.0
  {
  }

  /** Clamping from above first or from below first gives the same value. */
  lemma ClampOrderIrrelevant(x: Num)
    ensures Max(Finite(0.0), Min(Finite(1.0), x)) == Clamp01(x)
  {
  }

  /** The desktop progress: 0 unless the duration is positive. */
  function DesktopProgress(seekPosition: real, duration: real): (r: Num)
    ensures r.Finite?
    ensures duration <= 0.0 ==> r.v == 0.0
    ensures duration > 0.0 ==> r.v * duration == seekPosition
    ensures 0.0 <= seekPosition <= duration ==> 0.0 <= r.v <= 1.0
  {
    if duration > 0.0 then Finite(seekPosition / duration) else Finite(0.0)
  }

  /** The mobile progress: a bare division, NaN or infinite at zero duration. */
  function MobileProgress(seekPosition: real, duration: real): (r: Num)
    ensures duration != 0.0 ==> r == Finite(seekPosition / duration)
    ensures r.IsNaN() <==> seekPosition == 0.0 && duration == 0.0
    ensures duration == 0.0 && seekPosition > 0.0 ==> r.PosInf?
  {
    Div(seekPosition, duration)
  }

  datatype Bar = Bar(dragging: bool, local: Num)

  /** Which of the two seekbars: the mobile one guards against NaN, the desktop one does not. */
  datatype Variant = Mobile | Desktop

  /** The effect that copies the incoming progress while no drag is in progress. */
  function Sync(v: Variant, b: Bar, progress: Num): (r: Bar)
    ensures r.dragging == b.dragging
    ensures b.dragging ==> r == b
    ensures !b.dragging && v.Desktop? ==> r.local == progress
    ensures !b.dragging && v.Mobile? ==> !r.local.IsNaN() && (!progress.IsNaN() ==> r.local == progress)
  {
    if b.dragging then b
    else if v.Mobile? && progress.IsNaN() then b.(local := Finite(0.0))
    else b.(local := progress)
  }

  /** Pressing on the bar starts a drag at the cursor's progress, unguarded in both variants. */
  function DragStart(b: Bar, p: Num): (r: Bar)
    ensures r.dragging && r.local == p
  {
    Bar(true, p)
  }

  /** Moving the cursor updates the progress only during a drag. */
  function DragMove(v: Variant, b: Bar, p: Num): (r: Bar)
    ensures r.dragging == b.dragging
    ensures !b.dragging ==> r == b
    ensures b.dragging && v.Desktop? ==> r.local == p
    ensures b.dragging && v.Mobile? ==> !r.local.IsNaN() && (!p.IsNaN() ==> r.local == p)
  {
    if !b.dragging then b
    else if v.Mobile? && p.IsNaN() then b.(local := Finite(0.0))
    else b.(local := p)
  }

  /**
   * Releasing ends the drag and, only if one was in progress, seeks to
   * `localProgress * duration`.
   */
  function DragEnd(b: Bar, duration: real): (r: (Bar, Option<Num>))
    ensures !r.0.dragging && r.0.local == b.local
    ensures r.1.Some? <==> b.dragging
    ensures b.dragging && b.local.Finite? ==> r.1.value == Finite(b.local.v * duration)
    ensures b.dragging && b.local.Finite? && 0.0 <= b.local.v <= 1.0 && duration >= 0.0 ==>
      0.0 <= r.1.value.v <= duration
  {
    if b.dragging then
      assert b.local.Finite? && 0.0 <= b.local.v <= 1.0 && duration >= 0.0 ==> b.local.v * duration <= duration by {
        if b.local.Finite? && 0.0 <= b.local.v <= 1.0 && duration >= 0.0 {
          ScaleAtMost(b.local.v, duration);
        }
      }
      var target := Mul(b.local, duration);
      assert b.local.Finite? ==> target == Finite(b.local.v * duration);
      (b.(dragging := false), Some(target))
    else (b, None)
  }

  lemma ScaleAtMost(p: real, d: real)
    requires 0.0 <= p <= 1.0 && d >= 0.0
    ensures 0.0 <= p * d <= d
  {
    assert p * d <= 1.0 * d;
  }

  /**
   * A press and release on a mounted desktop bar of positive width seeks to
   * the cursor's fraction of the track, and the progress the player feeds
   * back for that position is exactly that fraction: the bar does not jump.
   */
  lemma ClickSeeksWherePressed(b: Bar, clientX: real, left: real, width: real, duration: real)
    requires width > 0.0 && left <= clientX <= left + width && duration > 0.0
    ensures DragEnd(DragStart(b, CalculateProgress(true, clientX, left, width)), duration).1.Some?
    ensures DragEnd(DragStart(b, CalculateProgress(true, clientX, left, width)), duration).1.value
      == Finite((clientX - left) / width * duration)
    ensures 0.0 <= (clientX - left) / width * duration <= duration
    ensures DesktopProgress((clientX - left) / width * duration, duration) == Finite((clientX - left) / width)
  {
    var fraction := (clientX - left) / width;
    RatioInUnit(clientX - left, width);
    var p := CalculateProgress(true, clientX, left, width);
    assert p == Finite(fraction);
    var started := DragStart(b, p);
    var r := DragEnd(started, duration);
    assert r.1.value.v == fraction * duration;
    ScaleAtMost(fraction, duration);
    assert fraction * duration / duration == fraction;
  }

  /** On the mobile bar, a drag move or a sync never leaves NaN as the progress. */
  lemma MobileNeverHoldsNaNAfterUpdate(b: Bar, p: Num)
    requires !b.local.IsNaN()
    ensures !Sync(Mobile, b, p).local.IsNaN()
    ensures !DragMove(Mobile, b, p).local.IsNaN()
  {
  }
}
