/** The win-back greeting shown after a long absence: whole days away, a
    message and an emoji picked by how many days, and the "away for" text with
    its Russian unit word. */
module WelcomeBack {
  import opened JsBuiltins

  /** `Math.floor(hoursAway / 24)` */
  function Days(hoursAway: int): (days: int)
    ensures days * 24 <= hoursAway < (days + 1) * 24
  {
    hoursAway / 24
  }

  const WeekMessage: string := "Целую неделю без тебя! Креветка чуть не засохла..."
  const ThreeDaysMessage: string := "Три дня молчания! Креветка думала ты её бросил..."
  const DayMessage: string := "Креветка соскучилась! Где ты пропадал?"
  const GreetingMessage: string := "С возвращением!"

  /** getMessage: the first tier whose day threshold (7, 3, 1) is reached. */
  function Message(days: int): (m: string)
    ensures m == WeekMessage <==> days >= 7
    ensures m == ThreeDaysMessage <==> 3 <= days < 7
    ensures m == DayMessage <==> 1 <= days < 3
    ensures m == GreetingMessage <==> days < 1
  {
    if days >= 7 then WeekMessage
    else if days >= 3 then ThreeDaysMessage
    else if days >= 1 then DayMessage
    else GreetingMessage
  }

  const WeekEmoji: string := "😭"
  const ThreeDaysEmoji: string := "🥺"
  const DefaultEmoji: string := "🦐💕"

  /** getEmoji: thresholds 7 and 3 days. */
  function Emoji(days: int): (e: string)
    ensures e == WeekEmoji <==> days >= 7
    ensures e == ThreeDaysEmoji <==> 3 <= days < 7
    ensures e == DefaultEmoji <==> days < 3
  {
    if days >= 7 then WeekEmoji
    else if days >= 3 then ThreeDaysEmoji
    else DefaultEmoji
  }

  /** In hours: the week message needs a full 168 hours away, the three-day
      message 72, the one-day message 24. */
  lemma MessageByHours(hoursAway: int)
    ensures Message(Days(hoursAway)) == WeekMessage <==> hoursAway >= 168
    ensures Message(Days(hoursAway)) == ThreeDaysMessage <==> 72 <= hoursAway < 168
    ensures Message(Days(hoursAway)) == DayMessage <==> 24 <= hoursAway < 72
    ensures Message(Days(hoursAway)) == GreetingMessage <==> hoursAway < 24
  {
    var d := Days(hoursAway);
    assert d >= 7 <==> hoursAway >= 168;
    assert d >= 3 <==> hoursAway >= 72;
    assert d >= 1 <==> hoursAway >= 24;
  }

  /** The unit word after a day count: 'день' for 1, 'дня' below 5, 'дней' otherwise. */
  function DayWord(days: int): (w: string)
    ensures w == "день" <==> days == 1
    ensures w == "дня" <==> days != 1 && days < 5
    ensures w == "дней" <==> days >= 5
  {
    if days == 1 then "день" else if days < 5 then "дня" else "дней"
  }

  /** The "away for" text: days with their unit word, or the hours when less
      than a day. */
  function AwayText(hoursAway: int): (t: string)
    ensures Days(hoursAway) > 0 ==> t == IntToString(Days(hoursAway)) + " " + DayWord(Days(hoursAway))
    ensures Days(hoursAway) <= 0 ==> t == IntToString(hoursAway) + " часов"
  {
    var days := Days(hoursAway);
    if days > 0 then IntToString(days) + " " + DayWord(days) else IntToString(hoursAway) + " часов"
  }

  /** The number the text shows is the whole days away, or the hours when that
      is not positive. */
  lemma AwayTextNumber(hoursAway: int)
    ensures ParseInt(AwayText(hoursAway)) == Some(if hoursAway >= 24 then hoursAway / 24 else hoursAway)
  {
    var days := Days(hoursAway);
    if days > 0 {
      var rest := " " + DayWord(days);
      assert AwayText(hoursAway) == IntToString(days) + rest;
      ParseIntOfIntToStringThen(days, rest);
    } else {
      ParseIntOfIntToStringThen(hoursAway, " часов");
    }
  }
}
