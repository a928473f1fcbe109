/** Notification permission and the welcome-back prompt: two stored flags
    ('true' or anything else), the timestamp of the last visit, and the prompt
    shown after 24 hours or more away. The clock is the parameter `now`
    (milliseconds); the host's answer to the permission request is `reply`
    (None: the request threw). */
module Notifications {
  import opened JsBuiltins

  const ALLOWED_KEY: string := "notifications_allowed"
  const LAST_VISIT_KEY: string := "last_visit_timestamp"
  const ASKED_KEY: string := "notification_asked"

  /** `1000 * 60 * 60` */
  const HOUR_MS: int := 3600000
  const WELCOME_BACK_HOURS: int := 24

  /** `stored[key] === 'true'` */
  predicate Flag(store: map<string, string>, key: string): (r: bool)
    ensures r <==> key in store && store[key] == "true"
  {
    Lookup(store, key) == Some("true")
  }

  datatype WelcomeBack = WelcomeBack(show: bool, hoursAway: int)

  /** `Math.floor(elapsed / HOUR_MS)`: the whole hours in `elapsed`
      milliseconds, rounded down (also for a negative `elapsed`). */
  function HoursSince(elapsed: int): (h: int)
    ensures h * HOUR_MS <= elapsed < h * HOUR_MS + HOUR_MS
    ensures h >= WELCOME_BACK_HOURS <==> elapsed >= WELCOME_BACK_HOURS * HOUR_MS
  {
    elapsed / HOUR_MS
  }

  /** The welcome-back decision: a positive last-visit time and at least 24
      whole hours since it. */
  function WelcomeBackOf(lastVisitText: Option<string>, now: int): (r: WelcomeBack)
    ensures var last := ParseIntOrZero(lastVisitText);
            (r.show <==> last > 0 && now - last >= WELCOME_BACK_HOURS * HOUR_MS) &&
            (r.show ==> r.hoursAway == HoursSince(now - last) && r.hoursAway >= WELCOME_BACK_HOURS)
  {
    var last := ParseIntOrZero(lastVisitText);
    if last > 0 && HoursSince(now - last) >= WELCOME_BACK_HOURS then WelcomeBack(true, HoursSince(now - last))
    else WelcomeBack(false, 0)
  }

  /** shouldAskPermission */
  function ShouldAskPermission(wasAsked: bool, isAllowed: bool): (r: bool)
    ensures r <==> !wasAsked && !isAllowed
  {
    !wasAsked && !isAllowed
  }

  /** The permission request ends in the catch block: the host call threw
      (None), or its reply is null or undefined, so reading `result.result`
      throws a TypeError. */
  predicate RequestThrows(reply: Option<JsValue>) {
    reply.None? || reply.value.Null? || reply.value.Undefined?
  }

  /** The notification hook's state and the host storage. */
  class NotificationState {
    var isAllowed: bool
    var wasAsked: bool
    var showWelcomeBack: bool
    var hoursAway: int
    var store: map<string, string>

    constructor (initial: map<string, string>)
      ensures !isAllowed && !wasAsked && !showWelcomeBack && hoursAway == 0 && store == initial
    {
      isAllowed := false;
      wasAsked := false;
      showWelcomeBack := false;
      hoursAway := 0;
      store := initial;
    }

    /** The load effect: the flags are read, the prompt is raised after a long
        absence, and the visit time is written. A read that throws
        (`readFails`) changes nothing. */
    method Load(now: int, readFails: bool)
      modifies this
      ensures readFails ==> isAllowed == old(isAllowed) && wasAsked == old(wasAsked) &&
                            showWelcomeBack == old(showWelcomeBack) && hoursAway == old(hoursAway) && store == old(store)
      ensures !readFails ==> isAllowed == Flag(old(store), ALLOWED_KEY) && wasAsked == Flag(old(store), ASKED_KEY)
      ensures !readFails ==>
        var w := WelcomeBackOf(Lookup(old(store), LAST_VISIT_KEY), now);
        (w.show ==> showWelcomeBack && hoursAway == w.hoursAway) &&
        (!w.show ==> showWelcomeBack == old(showWelcomeBack) && hoursAway == old(hoursAway))
      ensures !readFails ==> store == old(store)[LAST_VISIT_KEY := IntToString(now)]
    {
      if readFails {
        return;
      }
      isAllowed := Flag(store, ALLOWED_KEY);
      wasAsked := Flag(store, ASKED_KEY);
      var lastVisit := ParseIntOrZero(Lookup(store, LAST_VISIT_KEY));
      if lastVisit > 0 {
        var hoursSince := HoursSince(now - lastVisit);
        if hoursSince >= WELCOME_BACK_HOURS {
          hoursAway := hoursSince;
          showWelcomeBack := true;
        }
      }
      store := store[LAST_VISIT_KEY := IntToString(now)];
    }

    /** requestPermission: asks the host once. An earlier ask returns the known
        answer; an answer stores `String(allowed)` and 'true' under the two keys;
        a request that throws, or a reply of null or undefined whose `.result`
        throws, records only that it was asked and returns false. */
    method RequestPermission(reply: Option<JsValue>) returns (allowed: bool)
      modifies this
      ensures old(wasAsked) ==> allowed == old(isAllowed) && isAllowed == old(isAllowed) && wasAsked && store == old(store)
      ensures !old(wasAsked) && RequestThrows(reply) ==>
        !allowed && isAllowed == old(isAllowed) && wasAsked && store == old(store)[ASKED_KEY := "true"]
      ensures !old(wasAsked) && !RequestThrows(reply) ==>
        (allowed <==> Prop(reply.value, "result") == Bool(true)) && isAllowed == allowed && wasAsked &&
        store == old(store)[ALLOWED_KEY := if allowed then "true" else "false"][ASKED_KEY := "true"]
      ensures showWelcomeBack == old(showWelcomeBack) && hoursAway == old(hoursAway)
    {
      if wasAsked {
        return isAllowed;
      }
      if RequestThrows(reply) {
        wasAsked := true;
        store := store[ASKED_KEY := "true"];
        return false;
      }
      allowed := Prop(reply.value, "result") == Bool(true);
      isAllowed := allowed;
      wasAsked := true;
      store := store[ALLOWED_KEY := if allowed then "true" else "false"];
      store := store[ASKED_KEY := "true"];
    }

    /** dismissWelcomeBack */
    method DismissWelcomeBack()
      modifies this
      ensures !showWelcomeBack
      ensures isAllowed == old(isAllowed) && wasAsked == old(wasAsked) && hoursAway == old(hoursAway) && store == old(store)
    {
      showWelcomeBack := false;
    }
  }

  /** The visit time written on one load drives the next: opened again at
      `later` over a storage whose last visit reads `String(now)`, the prompt
      shows exactly when 24 hours or more have passed. */
  lemma WelcomeBackAfterAbsence(s: map<string, string>, now: int, later: int)
    requires now > 0
    requires LAST_VISIT_KEY in s && s[LAST_VISIT_KEY] == IntToString(now)
    ensures var w := WelcomeBackOf(Lookup(s, LAST_VISIT_KEY), later);
            (w.show <==> later - now >= WELCOME_BACK_HOURS * HOUR_MS) &&
            (w.show ==> w.hoursAway == HoursSince(later - now))
  {
    ParseIntOfIntToString(now);
    assert ParseIntOrZero(Lookup(s, LAST_VISIT_KEY)) == now;
  }

  /** An answer from the host is remembered: after a granted request the next
      load reads both flags as set, and nobody is asked again. */
  lemma GrantedSurvivesReload(store: map<string, string>)
    ensures var s := store[ALLOWED_KEY := "true"][ASKED_KEY := "true"];
            Flag(s, ALLOWED_KEY) && Flag(s, ASKED_KEY) && !ShouldAskPermission(Flag(s, ASKED_KEY), Flag(s, ALLOWED_KEY))
  {
    var s := store[ALLOWED_KEY := "true"][ASKED_KEY := "true"];
    assert Lookup(s, ALLOWED_KEY) == Some("true");
  }

  /** A refused or failed request is remembered as asked, so it is not repeated. */
  lemma AskedSurvivesReload(store: map<string, string>)
    ensures Flag(store[ASKED_KEY := "true"], ASKED_KEY)
    ensures !ShouldAskPermission(Flag(store[ASKED_KEY := "true"], ASKED_KEY), Flag(store[ASKED_KEY := "true"], ALLOWED_KEY))
  {
  }
}
