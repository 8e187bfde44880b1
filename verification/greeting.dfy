/**
 * The home-screen greeting. The clock is a parameter: the hour of the day
 * (0-23), the month (0-11, January is 0) and the day of the month. The
 * guarded player greets by part of the day only; the clone player first
 * checks four holidays and otherwise adds a seasonal sentence.
 */
module Greeting {

  import opened Wrappers

  datatype DayPart = Morning | Afternoon | Evening | Night

  datatype Season = Winter | Spring | Summer | Autumn

  datatype Holiday = Christmas | NewYearsEve | Halloween | ValentinesDay

  /** Mornings are 5-11, afternoons 12-16, evenings 17-20, nights the rest. */
  function PartOf(hour: int): (p: DayPart)
    ensures p == Morning <==> 5 <= hour < 12
    ensures p == Afternoon <==> 12 <= hour < 17
    ensures p == Evening <==> 17 <= hour < 21
    ensures p == Night <==> hour < 5 || hour >= 21
  {
    if 5 <= hour < 12 then Morning
    else if 12 <= hour < 17 then Afternoon
    else if 17 <= hour < 21 then Evening
    else Night
  }

  /** December to February is winter, then three months each of spring, summer and autumn. */
  function SeasonOf(month: int): (s: Option<Season>)
    ensures 0 <= month < 12 ==> s.Some?
    ensures s == Some(Winter) <==> month == 11 || month <= 1
    ensures s == Some(Spring) <==> 2 <= month <= 4
    ensures s == Some(Summer) <==> 5 <= month <= 7
    ensures s == Some(Autumn) <==> 8 <= month <= 10
  {
    if month == 11 || month <= 1 then Some(Winter)
    else if 2 <= month <= 4 then Some(Spring)
    else if 5 <= month <= 7 then Some(Summer)
    else if 8 <= month <= 10 then Some(Autumn)
    else None
  }

  /** Christmas is checked before New Year's Eve, then Halloween, then Valentine's Day. */
  function HolidayOf(month: int, day: int): (h: Option<Holiday>)
    ensures h == Some(Christmas) <==> month == 11 && day == 25
    ensures h == Some(NewYearsEve) <==> month == 11 && day == 31
    ensures h == Some(Halloween) <==> month == 9 && day == 31
    ensures h == Some(ValentinesDay) <==> month == 1 && day == 14
  {
    if month == 11 && day == 25 then Some(Christmas)
    else if month == 11 && day == 31 then Some(NewYearsEve)
    else if month == 9 && day == 31 then Some(Halloween)
    else if month == 1 && day == 14 then Some(ValentinesDay)
    else None
  }

  /** The guarded player's greeting. */
  function Salutation(p: DayPart): string {
    match p
    case Morning => "Good Morning!"
    case Afternoon => "Good Afternoon!"
    case Evening => "Good Evening!"
    case Night => "Good Night!"
  }

  function GuardedGreeting(hour: int): (r: string)
    ensures r == Salutation(PartOf(hour))
  {
    if hour >= 5 && hour < 12 then "Good Morning!"
    else if hour >= 12 && hour < 17 then "Good Afternoon!"
    else if hour >= 17 && hour < 21 then "Good Evening!"
    else "Good Night!"
  }

  function HolidayText(h: Holiday): string {
    match h
    case Christmas => "Merry Christmas! Enjoy the holiday season with great music."
    case NewYearsEve => "Happy New Year's Eve! Start your celebration with your favorite tunes."
    case Halloween => "Happy Halloween! Create a playlist to set the mood."
    case ValentinesDay => "Happy Valentine's Day! Let the music set the tone for today."
  }

  /** The sentence after the salutation, by part of the day and season. */
  function SeasonalText(p: DayPart, s: Option<Season>): string {
    match (p, s)
    case (Morning, Some(Winter)) => " A perfect day to cozy up with some music."
    case (Morning, Some(Spring)) => " Start your day fresh with some tunes."
    case (Morning, Some(Summer)) => " Brighten your morning with uplifting tracks."
    case (Morning, Some(Autumn)) => " A crisp day deserves a warm playlist."
    case (Morning, None) => " Let's get started with some music."
    case (Afternoon, Some(Winter)) => " Warm up your day with your favorite music."
    case (Afternoon, Some(Spring)) => " Enjoy the season with refreshing sounds."
    case (Afternoon, Some(Summer)) => " Take a break with some relaxing tracks."
    case (Afternoon, Some(Autumn)) => " Tune into the sounds of the season."
    case (Afternoon, None) => " The perfect time for some music."
    case (Evening, Some(Winter)) => " Wind down with a relaxing playlist."
    case (Evening, Some(Spring)) => " A calm night calls for soothing melodies."
    case (Evening, Some(Summer)) => " Unwind with your favorite songs."
    case (Evening, Some(Autumn)) => " End your day with some mellow tunes."
    case (Evening, None) => " Time to relax with some music."
    case (Night, Some(Winter)) => " Stay warm and let the music play."
    case (Night, Some(Spring)) => " Drift off with a calming playlist."
    case (Night, Some(Summer)) => " A quiet night for some soft music."
    case (Night, Some(Autumn)) => " Reflect on the day with your favorite tracks."
    case (Night, None) => " Time to relax with some music."
  }

  /** The clone player's greeting: a holiday wins over the time of day. */
  function CloneGreeting(hour: int, month: int, day: int): (r: string)
    ensures HolidayOf(month, day).Some? ==> r == HolidayText(HolidayOf(month, day).value)
    ensures HolidayOf(month, day).None? ==>
      r == Salutation(PartOf(hour)) + SeasonalText(PartOf(hour), SeasonOf(month))
  {
    var isWinter := month == 11 || month <= 1;
    var isSpring := month >= 2 && month <= 4;
    var isSummer := month >= 5 && month <= 7;
    var isAutumn := month >= 8 && month <= 10;
    if month == 11 && day == 25 then HolidayText(Christmas)
    else if month == 11 && day == 31 then HolidayText(NewYearsEve)
    else if month == 9 && day == 31 then HolidayText(Halloween)
    else if month == 1 && day == 14 then HolidayText(ValentinesDay)
    else
      var part := if hour >= 5 && hour < 12 then Morning
        else if hour >= 12 && hour < 17 then Afternoon
        else if hour >= 17 && hour < 21 then Evening
        else Night;
      var season := if isWinter then Some(Winter)
        else if isSpring then Some(Spring)
        else if isSummer then Some(Summer)
        else if isAutumn then Some(Autumn)
        else None;
      Salutation(part) + SeasonalText(part, season)
  }

  /**
   * On an ordinary day both players open with the same salutation: the
   * guarded greeting is a prefix of the clone greeting.
   */
  lemma GreetingsAgreeOffHolidays(hour: int, month: int, day: int)
    requires HolidayOf(month, day).None?
    ensures GuardedGreeting(hour) <= CloneGreeting(hour, month, day)
  {
    var s := Salutation(PartOf(hour));
    assert CloneGreeting(hour, month, day)[..|s|] == s;
  }

  /** On a holiday the greeting does not depend on the hour. */
  lemma HolidayIgnoresHour(h1: int, h2: int, month: int, day: int)
    requires HolidayOf(month, day).Some?
    ensures CloneGreeting(h1, month, day) == CloneGreeting(h2, month, day)
  {
  }

  /** For a real month the seasonless fallback sentences are never chosen. */
  lemma RealMonthsHaveASeason(hour: int, month: int, day: int)
    requires 0 <= month < 12 && HolidayOf(month, day).None?
    ensures CloneGreeting(hour, month, day) != Salutation(PartOf(hour)) + SeasonalText(PartOf(hour), None)
  {
    var p := PartOf(hour);
    var s := SeasonOf(month);
    assert SeasonalText(p, s) != SeasonalText(p, None);
    PrefixCancels(Salutation(p), SeasonalText(p, s), SeasonalText(p, None));
  }

  lemma PrefixCancels(a: string, b: string, c: string)
    ensures a + b == a + c <==> b == c
  {
    assert (a + b)[|a|..] == b;
    assert (a + c)[|a|..] == c;
  }
}
