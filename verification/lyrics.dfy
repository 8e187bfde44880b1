/**
 * Synced lyrics: which line is active at a playback time, when each line
 * ends, and how far through its line the playback is (the highlight sweep).
 * Times are seconds as exact reals; the LRC parsing that produces them is not
 * part of this model.
 */
module Lyrics {

  import opened JsNumber

  datatype Line = Line(time: real, text: string)

  /**
   * The `findIndex` test of both variants: line `i` is active at `t` when `t`
   * has reached its time and not yet the next line's; the last line has no
   * upper bound.
   */
  predicate Covers(lines: seq<Line>, i: int, t: real)
    requires 0 <= i < |lines|
  {
    t >= lines[i].time && (i == |lines| - 1 || t < lines[i + 1].time)
  }

  function ActiveFrom(lines: seq<Line>, t: real, k: nat): (r: int)
    requires k <= |lines|
    ensures r == -1 || k <= r < |lines|
    ensures r >= 0 ==> Covers(lines, r, t) && forall j :: k <= j < r ==> !Covers(lines, j, t)
    ensures r == -1 ==> forall j :: k <= j < |lines| ==> !Covers(lines, j, t)
    decreases |lines| - k
  {
    if k == |lines| then -1
    else if Covers(lines, k, t) then k
    else ActiveFrom(lines, t, k + 1)
  }

  /** The active line's index, or -1 when no line covers `t`. */
  function ActiveLine(lines: seq<Line>, t: real): (r: int)
    ensures -1 <= r < |lines|
    ensures r >= 0 ==> Covers(lines, r, t) && forall j :: 0 <= j < r ==> !Covers(lines, j, t)
    ensures r == -1 <==> forall j :: 0 <= j < |lines| ==> !Covers(lines, j, t)
  {
    ActiveFrom(lines, t, 0)
  }

  /** The update after a lookup: a found line replaces the current index, -1 keeps it. */
  function SyncIndex(current: int, lines: seq<Line>, t: real): (r: int)
    ensures ActiveLine(lines, t) == -1 ==> r == current
    ensures ActiveLine(lines, t) != -1 ==> r == ActiveLine(lines, t) && Covers(lines, r, t)
  {
    var active := ActiveLine(lines, t);
    if active != -1 then active else current
  }

  /** Lyric times that never go backwards, as an LRC file lists them. */
  predicate Sorted(lines: seq<Line>) {
    forall i, j :: 0 <= i < j < |lines| ==> lines[i].time <= lines[j].time
  }

  /**
   * On sorted lines the lookup finds nothing exactly when `t` is before the
   * first line, and otherwise finds the last line whose time has been reached.
   */
  lemma {:induction false} ActiveLineSorted(lines: seq<Line>, t: real)
    requires Sorted(lines)
    ensures ActiveLine(lines, t) == -1 <==> |lines| == 0 || t < lines[0].time
    ensures ActiveLine(lines, t) >= 0 ==>
      && lines[ActiveLine(lines, t)].time <= t
      && forall j :: ActiveLine(lines, t) < j < |lines| ==> lines[j].time > t
  {
    var r := ActiveLine(lines, t);
    if |lines| > 0 && t >= lines[0].time {
      var m := LastReached(lines, t, 0);
      assert Covers(lines, m, t);
      assert r != -1;
    }
  }

  /** The last line at or after `k` whose time has been reached, for a reached `k`. */
  lemma LastReached(lines: seq<Line>, t: real, k: nat) returns (m: nat)
    requires Sorted(lines)
    requires k < |lines| && lines[k].time <= t
    ensures k <= m < |lines| && Covers(lines, m, t)
    decreases |lines| - k
  {
    if k == |lines| - 1 || t < lines[k + 1].time {
      m := k;
    } else {
      m := LastReached(lines, t, k + 1);
    }
  }

  /** On sorted lines, the active line never moves backwards as playback advances. */
  lemma ActiveLineMonotone(lines: seq<Line>, t1: real, t2: real)
    requires Sorted(lines) && t1 <= t2
    requires ActiveLine(lines, t1) != -1
    ensures ActiveLine(lines, t1) <= ActiveLine(lines, t2)
  {
    ActiveLineSorted(lines, t1);
    ActiveLineSorted(lines, t2);
  }

  /**
   * `processedLyrics`' end time of line `i`: the next line's time, or the
   * track duration for the last line and whenever the next time is 0 (`||`).
   */
  function EndTime(lines: seq<Line>, i: nat, duration: real): (r: real)
    requires i < |lines|
    ensures i + 1 < |lines| && lines[i + 1].time != 0.0 ==> r == lines[i + 1].time
    ensures i + 1 == |lines| || lines[i + 1].time == 0.0 ==> r == duration
  {
    if i + 1 < |lines| && lines[i + 1].time != 0.0 then lines[i + 1].time else duration
  }

  /**
   * `getLyricProgress`: 0 for an index that names no line; otherwise the
   * elapsed part of the line's segment, clamped to [0, 1]. The second `||`
   * fallback to the duration is modelled although `EndTime` already applied it.
   */
  function LyricProgress(lines: seq<Line>, index: int, seekPosition: real, duration: real): (r: Num)
    ensures !(0 <= index < |lines|) ==> r == Finite(0.0)
    ensures 0 <= index < |lines| ==>
      var start := lines[index].time;
      var end := EndTime(lines, index, duration);
      && (r.IsNaN() <==> seekPosition == start && end == start)
      && (!r.IsNaN() ==> r.Finite? && 0.0 <= r.v <= 1.0)
      && (start <= seekPosition <= end && start < end ==> r == Finite((seekPosition - start) / (end - start)))
  {
    if !(0 <= index < |lines|) then Finite(0.0)
    else
      var start := lines[index].time;
      var endTime := EndTime(lines, index, duration);
      var end := if endTime != 0.0 then endTime else duration;
      assert end == endTime;
      assert start <= seekPosition <= end && start < end ==> 0.0 <= (seekPosition - start) / (end - start) <= 1.0 by {
        if start <= seekPosition <= end && start < end {
          FractionInUnit(seekPosition - start, end - start);
        }
      }
      Clamp01(Div(seekPosition - start, end - start))
  }

  lemma FractionInUnit(a: real, w: real)
    requires w > 0.0 && 0.0 <= a <= w
    ensures 0.0 <= a / w <= 1.0
  {
  }

  /**
   * The highlight sweep of the line the lookup selects is an honest fraction:
   * while playback is inside the track, the active line's segment has positive
   * length and its progress is the elapsed share of it, below 1.
   */
  lemma ActiveLineProgress(lines: seq<Line>, seekPosition: real, duration: real)
    requires 0.0 <= seekPosition < duration
    requires ActiveLine(lines, seekPosition) != -1
    ensures var i := ActiveLine(lines, seekPosition);
      var start := lines[i].time;
      var end := EndTime(lines, i, duration);
      && start <= seekPosition < end
      && LyricProgress(lines, i, seekPosition, duration) == Finite((seekPosition - start) / (end - start))
      && 0.0 <= (seekPosition - start) / (end - start) < 1.0
  {
    var i := ActiveLine(lines, seekPosition);
    var start := lines[i].time;
    var end := EndTime(lines, i, duration);
    assert seekPosition < end;
    FractionBelowOne(seekPosition - start, end - start);
  }

  lemma FractionBelowOne(a: real, w: real)
    requires 0.0 <= a < w
    ensures 0.0 <= a / w < 1.0
  {
  }
}
