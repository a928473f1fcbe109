/** The tap screen machine: the player picks a tone, taps the shrimp, sees a
    card and its diagnosis, and is stopped at the limit screen after three taps
    a day unless they are an admin. The clock is the date string `today`; the
    random card index is the parameter `pick`; the two animation timers are the
    methods `AnimationDone` and `RevealDiagnosis`. */
module App {
  import opened JsBuiltins
  import opened Cards

  datatype Screen = ChoiceScreen | TapScreen | CardScreen | LimitScreen

  const DAILY_LIMIT: int := 3
  const ADMIN_IDS: seq<int> := [198367679]

  const TAPS_KEY: string := "tapsToday"
  const DATE_KEY: string := "lastTapDate"

  /** `Math.max(0, DAILY_LIMIT - taps)` */
  function TapsLeft(taps: int): (r: int)
    ensures 0 <= r
    ensures taps >= 0 ==> r <= DAILY_LIMIT
    ensures r == 0 <==> taps >= DAILY_LIMIT
    ensures r > 0 ==> taps + r == DAILY_LIMIT
  {
    if DAILY_LIMIT - taps > 0 then DAILY_LIMIT - taps else 0
  }

  /** Whether a tap with this count draws a card (and is not sent to the
      limit screen). */
  predicate TapAllowed(isAdmin: bool, taps: int): (r: bool)
    ensures r <==> isAdmin || TapsLeft(taps) > 0
  {
    isAdmin || taps < DAILY_LIMIT
  }

  /** The number of cards a player draws in `attempts` taps, starting from
      `taps` taps already made today. */
  function Draws(isAdmin: bool, taps: int, attempts: nat): (n: nat)
    ensures n <= attempts
    decreases attempts
  {
    if attempts == 0 then 0
    else if TapAllowed(isAdmin, taps) then 1 + Draws(isAdmin, taps + 1, attempts - 1)
    else Draws(isAdmin, taps, attempts - 1)
  }

  /** However often a non-admin taps, they draw exactly as many cards as the
      taps left allow, and no more: never more than three a day. */
  lemma {:induction false} DrawsAreBudgeted(taps: int, attempts: nat)
    ensures Draws(false, taps, attempts) == if attempts < TapsLeft(taps) then attempts else TapsLeft(taps)
    decreases attempts
  {
    if attempts > 0 {
      if TapAllowed(false, taps) {
        DrawsAreBudgeted(taps + 1, attempts - 1);
      } else {
        DrawsAreBudgeted(taps, attempts - 1);
      }
    }
  }

  /** An admin draws a card on every tap. */
  lemma {:induction false} AdminUnlimited(taps: int, attempts: nat)
    ensures Draws(true, taps, attempts) == attempts
    decreases attempts
  {
    if attempts > 0 {
      AdminUnlimited(taps + 1, attempts - 1);
    }
  }

  // ---------------------------------------------------------------------------
  // The stored tap count

  /** The tap count the load reads, as written: `parseInt(stored) || 0` on the
      day it was stored, 0 on another day. */
  function StoredTapsAsWritten(store: map<string, string>, today: string): (taps: int)
    ensures Lookup(store, DATE_KEY) != Some(today) ==> taps == 0
  {
    if Lookup(store, DATE_KEY) == Some(today) then ParseIntOrZero(Lookup(store, TAPS_KEY)) else 0
  }

  /** A negative stored count dated today ("-5", say) is taken as it is: the
      player gets 3 + m taps left, more than the daily limit, and a
      non-admin then draws 3 + m cards that day. */
  lemma NegativeStoredCountAsWritten(store: map<string, string>, today: string, m: nat)
    requires m > 0
    requires TAPS_KEY in store && store[TAPS_KEY] == "-" + NatToString(m)
    requires DATE_KEY in store && store[DATE_KEY] == today
    ensures StoredTapsAsWritten(store, today) == -(m as int)
    ensures TapsLeft(StoredTapsAsWritten(store, today)) == DAILY_LIMIT + m > DAILY_LIMIT
    ensures Draws(false, StoredTapsAsWritten(store, today), DAILY_LIMIT + m) == DAILY_LIMIT + m
  {
    assert NatToString(m) + "" == NatToString(m);
    ParseIntOfNegative(store[TAPS_KEY], m, "");
    assert Lookup(store, TAPS_KEY) == Some(store[TAPS_KEY]);
    DrawsAreBudgeted(-(m as int), DAILY_LIMIT + m);
  }

  /** The tap count the load evidently means to read: as written, but never
      below 0. */
  function StoredTaps(store: map<string, string>, today: string): (taps: int)
    ensures taps >= 0
    ensures taps == (if StoredTapsAsWritten(store, today) < 0 then 0 else StoredTapsAsWritten(store, today))
  {
    var t := StoredTapsAsWritten(store, today);
    if t < 0 then 0 else t
  }

  /** With the corrected read, a non-admin never draws more than three cards on
      a day, whatever the storage holds. */
  lemma StoredTapsBudgeted(store: map<string, string>, today: string, attempts: nat)
    ensures Draws(false, StoredTaps(store, today), attempts) <= DAILY_LIMIT
  {
    DrawsAreBudgeted(StoredTaps(store, today), attempts);
  }

  /** The count a tap writes reads back on a reload the same day. */
  lemma TapsSurviveReload(s: map<string, string>, n: nat, today: string)
    requires TAPS_KEY in s && DATE_KEY in s && s[TAPS_KEY] == IntToString(n) && s[DATE_KEY] == today
    ensures StoredTaps(s, today) == n
  {
    ParseIntOfIntToString(n);
    assert Lookup(s, TAPS_KEY) == Some(IntToString(n));
  }

  // ---------------------------------------------------------------------------
  // The screen machine

  class AppState {
    var screen: Screen
    var mode: Option<Mode>
    var currentCard: Option<Card>
    var isAnimating: bool
    var tapsToday: int
    var showDiagnosis: bool
    var isAdmin: bool
    var tapsLeft: int
    var store: map<string, string>

    /** The tap bookkeeping: the count is never negative and the taps left
        follow from it. */
    predicate Valid()
      reads this
    {
      0 <= tapsToday && tapsLeft == TapsLeft(tapsToday)
    }

    constructor (initial: map<string, string>)
      ensures Valid()
      ensures screen == ChoiceScreen && mode.None? && currentCard.None? && !isAnimating
      ensures tapsToday == 0 && tapsLeft == DAILY_LIMIT && !showDiagnosis && !isAdmin && store == initial
    {
      screen := ChoiceScreen;
      mode := None;
      currentCard := None;
      isAnimating := false;
      tapsToday := 0;
      showDiagnosis := false;
      isAdmin := false;
      tapsLeft := DAILY_LIMIT;
      store := initial;
    }

    /** The user-info effect: an admin id turns the limit off; None is a
        request that threw. */
    method LoadUser(userId: Option<int>)
      modifies this
      ensures isAdmin == (old(isAdmin) || (userId.Some? && userId.value in ADMIN_IDS))
      ensures screen == old(screen) && tapsToday == old(tapsToday) && tapsLeft == old(tapsLeft) && store == old(store)
      ensures mode == old(mode) && currentCard == old(currentCard) && isAnimating == old(isAnimating) && showDiagnosis == old(showDiagnosis)
    {
      if userId.Some? && userId.value in ADMIN_IDS {
        isAdmin := true;
      }
    }

    /** The storage effect, run once on mount: the count stored today is
        restored (never below 0) with the taps it leaves; on another day the
        full budget is shown. On mount the count is still 0, so the state is
        then valid. */
    method LoadTaps(today: string, readFails: bool)
      modifies this
      ensures old(tapsToday) == 0 && old(tapsLeft) == DAILY_LIMIT ==> Valid()
      ensures readFails ==> tapsToday == old(tapsToday) && tapsLeft == old(tapsLeft)
      ensures !readFails && Lookup(store, DATE_KEY) == Some(today) ==>
        tapsToday == StoredTaps(store, today) && tapsLeft == TapsLeft(tapsToday)
      ensures !readFails && Lookup(store, DATE_KEY) != Some(today) ==>
        tapsToday == old(tapsToday) && tapsLeft == DAILY_LIMIT
      ensures screen == old(screen) && isAdmin == old(isAdmin) && store == old(store)
      ensures mode == old(mode) && currentCard == old(currentCard) && isAnimating == old(isAnimating) && showDiagnosis == old(showDiagnosis)
    {
      if readFails {
        return;
      }
      if Lookup(store, DATE_KEY) == Some(today) {
        var taps := StoredTaps(store, today);
        tapsToday := taps;
        tapsLeft := TapsLeft(taps);
      } else {
        tapsLeft := DAILY_LIMIT;
      }
    }

    /** handleModeSelect */
    method HandleModeSelect(m: Mode)
      modifies this
      ensures mode == Some(m) && screen == TapScreen
      ensures tapsToday == old(tapsToday) && tapsLeft == old(tapsLeft) && isAnimating == old(isAnimating)
      ensures currentCard == old(currentCard) && store == old(store) && isAdmin == old(isAdmin)
      ensures showDiagnosis == old(showDiagnosis)
    {
      mode := Some(m);
      screen := TapScreen;
    }

    /** handleTap: ignored while animating; over the limit (non-admins only) it
        shows the limit screen; otherwise it draws the card at `pick`, counts
        the tap and writes the count with today's date. */
    method HandleTap(cards: seq<Card>, pick: nat, today: string)
      requires Valid()
      modifies this
      ensures Valid()
      ensures old(isAnimating) ==> screen == old(screen) && tapsToday == old(tapsToday) && store == old(store) && currentCard == old(currentCard)
      ensures old(isAnimating) ==> isAnimating && showDiagnosis == old(showDiagnosis) && tapsLeft == old(tapsLeft)
      ensures !old(isAnimating) && !TapAllowed(isAdmin, old(tapsToday)) ==>
        screen == LimitScreen && tapsToday == old(tapsToday) && store == old(store) && !isAnimating && currentCard == old(currentCard)
      ensures !old(isAnimating) && !TapAllowed(isAdmin, old(tapsToday)) ==>
        showDiagnosis == old(showDiagnosis) && tapsLeft == old(tapsLeft)
      ensures !old(isAnimating) && TapAllowed(isAdmin, old(tapsToday)) ==>
        isAnimating && !showDiagnosis && tapsToday == old(tapsToday) + 1 &&
        currentCard == (if |cards| > 0 then Some(cards[pick % |cards|]) else None) &&
        store == old(store)[TAPS_KEY := IntToString(tapsToday)][DATE_KEY := today] && screen == old(screen)
      ensures isAdmin == old(isAdmin) && mode == old(mode)
    {
      if isAnimating {
        return;
      }
      if !isAdmin && tapsToday >= DAILY_LIMIT {
        screen := LimitScreen;
        return;
      }
      isAnimating := true;
      currentCard := if |cards| > 0 then Some(cards[pick % |cards|]) else None;
      showDiagnosis := false;
      var newTapsCount := tapsToday + 1;
      tapsToday := newTapsCount;
      tapsLeft := TapsLeft(newTapsCount);
      store := store[TAPS_KEY := IntToString(newTapsCount)];
      store := store[DATE_KEY := today];
    }

    /** The 700 ms timer after a tap: the card screen. */
    method AnimationDone()
      modifies this
      ensures !isAnimating && screen == CardScreen
      ensures tapsToday == old(tapsToday) && tapsLeft == old(tapsLeft) && currentCard == old(currentCard) && store == old(store)
      ensures mode == old(mode) && showDiagnosis == old(showDiagnosis) && isAdmin == old(isAdmin)
    {
      isAnimating := false;
      screen := CardScreen;
    }

    /** The 800 ms timer after the card screen: the diagnosis is shown. */
    method RevealDiagnosis()
      modifies this
      ensures showDiagnosis
      ensures screen == old(screen) && tapsToday == old(tapsToday) && tapsLeft == old(tapsLeft) && store == old(store)
      ensures currentCard == old(currentCard) && mode == old(mode) && isAnimating == old(isAnimating) && isAdmin == old(isAdmin)
    {
      showDiagnosis := true;
    }

    /** handleAgain */
    method HandleAgain()
      modifies this
      ensures currentCard.None? && !showDiagnosis && screen == TapScreen
      ensures mode == old(mode) && tapsToday == old(tapsToday) && tapsLeft == old(tapsLeft) && store == old(store)
      ensures isAnimating == old(isAnimating) && isAdmin == old(isAdmin)
    {
      currentCard := None;
      showDiagnosis := false;
      screen := TapScreen;
    }

    /** handleChangeMode */
    method HandleChangeMode()
      modifies this
      ensures currentCard.None? && !showDiagnosis && mode.None? && screen == ChoiceScreen
      ensures tapsToday == old(tapsToday) && tapsLeft == old(tapsLeft) && store == old(store)
      ensures isAnimating == old(isAnimating) && isAdmin == old(isAdmin)
    {
      currentCard := None;
      showDiagnosis := false;
      mode := None;
      screen := ChoiceScreen;
    }
  }
}
