/**
 * The `m:ss` clock label of the players. The mobile `formatTime`, the desktop
 * `formatTimeDesktop` and the shared desktop utility are the same function:
 * zero, negative and NaN inputs read "0:00"; otherwise the minutes are
 * `floor(s / 60)` and the seconds `floor(s % 60)`, padded to two digits.
 */
module TimeFormat {

  import opened Wrappers
  import opened JsNumber
  import opened Decimal

  const ZeroClock := "0:00"

  /** `String(Infinity / 60) + ":" + String(NaN).padStart(2, "0")` */
  const InfiniteClock := "Infinity:NaN"

  /** `s.padStart(2, "0")` */
  function Pad2(s: string): (r: string)
    ensures |s| >= 2 ==> r == s
    ensures |s| < 2 ==> |r| == 2 && r[2 - |s|..] == s && forall i :: 0 <= i < 2 - |s| ==> r[i] == '0'
  {
    if |s| >= 2 then s
    else if |s| == 1 then "0" + s
    else "00"
  }

  /** `Math.floor(v / 60)` */
  function Minutes(v: real): int {
    (v / 60.0).Floor
  }

  /** `Math.floor(v % 60)` for positive `v`, where `%` keeps the dividend's sign. */
  function Seconds(v: real): int {
    (v - 60.0 * (Minutes(v) as real)).Floor
  }

  /** For a non-negative time the two fields split its whole seconds. */
  lemma ClockFieldsSplit(v: real)
    requires v >= 0.0
    ensures Minutes(v) >= 0
    ensures 0 <= Seconds(v) < 60
    ensures Minutes(v) * 60 + Seconds(v) == v.Floor
  {
    var m := Minutes(v);
    assert (m as real) <= v / 60.0 < (m as real) + 1.0;
    assert 60.0 * (m as real) <= v < 60.0 * (m as real) + 60.0;
    var rest := v - 60.0 * (m as real);
    assert 0.0 <= rest < 60.0;
    FloorShift(rest, 60 * m);
    assert rest + ((60 * m) as real) == v;
  }

  lemma FloorShift(x: real, n: int)
    ensures (x + (n as real)).Floor == x.Floor + n
  {
    var f := x.Floor;
    assert (f as real) <= x < (f as real) + 1.0;
    assert ((f + n) as real) <= x + (n as real) < ((f + n) as real) + 1.0;
  }

  function FormatTime(s: Num): (r: string)
    ensures s.NaN? || s.NegInf? || (s.Finite? && s.v <= 0.0) ==> r == ZeroClock
    ensures s.PosInf? ==> r == InfiniteClock
    ensures s.Finite? && s.v > 0.0 ==>
      && Minutes(s.v) >= 0 && 0 <= Seconds(s.v) < 60
      && r == NatToString(Minutes(s.v)) + ":" + Pad2(NatToString(Seconds(s.v)))
  {
    match s
    case NaN => ZeroClock
    case NegInf => ZeroClock
    case PosInf => InfiniteClock
    case Finite(v) =>
      if v <= 0.0 then ZeroClock
      else
        ClockFieldsSplit(v);
        NatToString(Minutes(v)) + ":" + Pad2(NatToString(Seconds(v)))
  }

  /** Reads an `m:ss` label back to whole seconds; anything else is `None`. */
  function ParseClock(text: string): Option<int> {
    if |text| < 4 || text[|text| - 3] != ':' then None
    else
      var mins := text[..|text| - 3];
      var secs := text[|text| - 2..];
      if !AllDigits(mins) || !AllDigits(secs) then None
      else if ParseNat(secs) >= 60 then None
      else Some(ParseNat(mins) * 60 + ParseNat(secs))
  }

  /** The seconds field of a label is always two digits. */
  lemma SecondsFieldTwoDigits(sec: nat)
    requires sec < 60
    ensures |Pad2(NatToString(sec))| == 2
    ensures AllDigits(Pad2(NatToString(sec)))
    ensures ParseNat(Pad2(NatToString(sec))) == sec
  {
    var d := NatToString(sec);
    NatToStringRoundTrip(sec);
    if |d| == 1 {
      var p := Pad2(d);
      assert p == "0" + d;
      assert p[..1] == "0";
      assert ParseNat(p[..1]) == 10 * ParseNat([]) + DigitValue('0');
    }
  }

  lemma ParseJoined(mins: string, secs: string)
    requires |mins| >= 1 && AllDigits(mins)
    requires |secs| == 2 && AllDigits(secs) && ParseNat(secs) < 60
    ensures ParseClock(mins + ":" + secs) == Some(ParseNat(mins) * 60 + ParseNat(secs))
  {
    var text := mins + ":" + secs;
    assert text[..|text| - 3] == mins;
    assert text[|text| - 2..] == secs;
  }

  lemma ZeroClockReadsZero()
    ensures ParseClock(ZeroClock) == Some(0)
  {
    assert ZeroClock[..1] == "0" && ZeroClock[2..] == "00";
    assert ParseNat("0") == 0;
    assert ParseNat("00") == 10 * ParseNat("0") + 0;
  }

  lemma PositiveRoundTrip(v: real)
    requires v > 0.0
    ensures ParseClock(FormatTime(Finite(v))) == Some(v.Floor)
  {
    ClockFieldsSplit(v);
    var m := NatToString(Minutes(v));
    var p := Pad2(NatToString(Seconds(v)));
    assert FormatTime(Finite(v)) == m + ":" + p;
    SecondsFieldTwoDigits(Seconds(v));
    NatToStringRoundTrip(Minutes(v));
    ParseJoined(m, p);
  }

  /**
   * A label decodes to the whole-second value it was made from: the minutes
   * and two-digit seconds fields recombine as `mins * 60 + secs == floor(s)`.
   */
  lemma FormatTimeRoundTrip(v: real)
    requires v >= 0.0
    ensures ParseClock(FormatTime(Finite(v))) == Some(v.Floor)
  {
    if v == 0.0 {
      ZeroClockReadsZero();
    } else {
      PositiveRoundTrip(v);
    }
  }
}
