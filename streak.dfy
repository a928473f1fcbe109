/** The day streak: on load, a visit on the same day keeps the stored count, a
    visit the day after the last one adds one, any other visit starts over at
    one; the new count and today's date are written back. The clock is the
    pair of date strings `today` and `yesterday` (Date.toDateString()); a read
    that throws is the flag `readFails`. */
module Streak {
  import opened JsBuiltins
  import opened Validation

  const COUNT_KEY: string := "streakCount"
  const DATE_KEY: string := "lastVisitDate"

  /** The validated `{ streak, lastDate }` the stored strings give. */
  function Stored(store: map<string, string>): (d: StreakData)
    ensures 0 <= d.streak <= MaxStreak
  {
    ValidateStreakData(Lookup(store, COUNT_KEY), Lookup(store, DATE_KEY))
  }

  /** saveStreak: `String(count)` and the date under their two keys. */
  function SaveStreak(store: map<string, string>, count: int, date: string): (r: map<string, string>)
    ensures r.Keys == store.Keys + {COUNT_KEY, DATE_KEY}
    ensures r[COUNT_KEY] == IntToString(count) && r[DATE_KEY] == date
    ensures forall k :: k in store && k != COUNT_KEY && k != DATE_KEY ==> r[k] == store[k]
  {
    store[COUNT_KEY := IntToString(count)][DATE_KEY := date]
  }

  /** The streak in memory and the storage after a load. */
  datatype StreakState = StreakState(streak: int, store: map<string, string>)

  /** The load-time transition. */
  function LoadEffect(store: map<string, string>, today: string, yesterday: string, readFails: bool): (r: StreakState)
    ensures readFails ==> r == StreakState(1, store)
    ensures !readFails && Stored(store).lastDate == Some(today) ==>
              r == StreakState(Stored(store).streak, store)
    ensures !readFails && Stored(store).lastDate != Some(today) && Stored(store).lastDate == Some(yesterday) ==>
              r.streak == Stored(store).streak + 1 && r.store == SaveStreak(store, r.streak, today)
    ensures !readFails && Stored(store).lastDate != Some(today) && Stored(store).lastDate != Some(yesterday) ==>
              r.streak == 1 && r.store == SaveStreak(store, 1, today)
    ensures 0 <= r.streak <= MaxStreak + 1
  {
    if readFails then StreakState(1, store)
    else
      var d := Stored(store);
      if d.lastDate == Some(today) then StreakState(d.streak, store)
      else if d.lastDate == Some(yesterday) then StreakState(d.streak + 1, SaveStreak(store, d.streak + 1, today))
      else StreakState(1, SaveStreak(store, 1, today))
  }

  /** What a load writes reads back as the count it wrote, dated today. */
  lemma SavedReadsBack(store: map<string, string>, count: int, today: string)
    requires 0 <= count <= MaxStreak && today != ""
    ensures Stored(SaveStreak(store, count, today)) == StreakData(count, Some(today))
  {
    var s := SaveStreak(store, count, today);
    assert Lookup(s, COUNT_KEY) == Some(IntToString(count));
    assert Lookup(s, DATE_KEY) == Some(today);
    StreakDataRoundTrip(count, today);
  }

  /** Loading twice on the same day: the second load keeps the first load's
      streak and writes nothing. */
  lemma SameDayReload(store: map<string, string>, today: string, yesterday: string, yesterday2: string)
    requires today != ""
    requires LoadEffect(store, today, yesterday, false).streak <= MaxStreak
    ensures var first := LoadEffect(store, today, yesterday, false);
            LoadEffect(first.store, today, yesterday2, false) == first
  {
    var first := LoadEffect(store, today, yesterday, false);
    if Stored(store).lastDate != Some(today) {
      SavedReadsBack(store, first.streak, today);
    }
  }

  /** Loading on consecutive days adds exactly one to the streak. */
  lemma NextDayAddsOne(store: map<string, string>, day1: string, before1: string, day2: string)
    requires day1 != "" && day2 != day1
    requires LoadEffect(store, day1, before1, false).streak <= MaxStreak
    ensures var first := LoadEffect(store, day1, before1, false);
            var second := LoadEffect(first.store, day2, day1, false);
            second.streak == first.streak + 1 &&
            (day2 != "" && second.streak <= MaxStreak ==> Stored(second.store) == StreakData(second.streak, Some(day2)))
  {
    var first := LoadEffect(store, day1, before1, false);
    if Stored(store).lastDate != Some(day1) {
      SavedReadsBack(store, first.streak, day1);
    }
    var second := LoadEffect(first.store, day2, day1, false);
    if day2 != "" && second.streak <= MaxStreak {
      SavedReadsBack(first.store, second.streak, day2);
    }
  }

  /** Skipping a day starts the streak over at one. */
  lemma SkippedDayRestarts(store: map<string, string>, day1: string, before1: string, day3: string, day2: string)
    requires day1 != "" && day3 != day1 && day2 != day1
    requires LoadEffect(store, day1, before1, false).streak <= MaxStreak
    ensures LoadEffect(LoadEffect(store, day1, before1, false).store, day3, day2, false).streak == 1
  {
    var first := LoadEffect(store, day1, before1, false);
    if Stored(store).lastDate != Some(day1) {
      SavedReadsBack(store, first.streak, day1);
    }
  }

  /** The count grows past the stored cap: a stored 365 continued on the next
      day is 366 in memory, written as "366", and read back as 365. */
  lemma StreakPastCapReadsBackClamped(store: map<string, string>, today: string, yesterday: string)
    requires Stored(store) == StreakData(MaxStreak, Some(yesterday)) && today != yesterday && today != ""
    ensures LoadEffect(store, today, yesterday, false).streak == MaxStreak + 1
    ensures Stored(LoadEffect(store, today, yesterday, false).store) == StreakData(MaxStreak, Some(today))
  {
    var after := SaveStreak(store, MaxStreak + 1, today);
    assert Lookup(after, COUNT_KEY) == Some(IntToString(MaxStreak + 1));
    assert Lookup(after, DATE_KEY) == Some(today);
    ParseIntOfIntToString(MaxStreak + 1);
  }

  /** The streak hook: the count in memory, the loaded flag and the storage. */
  class StreakTracker {
    var streak: int
    var isLoaded: bool
    var store: map<string, string>

    constructor (initial: map<string, string>)
      ensures streak == 0 && !isLoaded && store == initial
    {
      streak := 0;
      isLoaded := false;
      store := initial;
    }

    /** The load effect: applies the transition and marks the hook loaded. */
    method Load(today: string, yesterday: string, readFails: bool)
      modifies this
      ensures isLoaded
      ensures StreakState(streak, store) == LoadEffect(old(store), today, yesterday, readFails)
    {
      if readFails {
        streak := 1;
      } else {
        var d := Stored(store);
        if d.lastDate == Some(today) {
          streak := d.streak;
        } else if d.lastDate == Some(yesterday) {
          streak := d.streak + 1;
          store := SaveStreak(store, streak, today);
        } else {
          streak := 1;
          store := SaveStreak(store, 1, today);
        }
      }
      isLoaded := true;
    }
  }

  // ---------------------------------------------------------------------------
  // Bonus tier

  datatype Bonus = Bonus(emoji: string, caption: string, color: string)

  /** getStreakBonus */
  function StreakBonus(streak: int): (b: Bonus)
    ensures b.caption == "Легенда" <==> streak >= 30
    ensures b.caption == "Мастер" <==> 14 <= streak < 30
    ensures b.caption == "В огне!" <==> 7 <= streak < 14
    ensures b.caption == "Разгон" <==> 3 <= streak < 7
    ensures b.caption == "Старт" <==> streak < 3
  {
    if streak >= 30 then Bonus("👑", "Легенда", "#FFD700")
    else if streak >= 14 then Bonus("💎", "Мастер", "#00CED1")
    else if streak >= 7 then Bonus("🔥", "В огне!", "#FF6B6B")
    else if streak >= 3 then Bonus("⚡", "Разгон", "#FFB347")
    else Bonus("🌱", "Старт", "#98D8AA")
  }
}
