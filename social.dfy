/** Local analytics and the share-to-friend link. The roll-up is one JSON
    document under the key `krevetka_analytics`: every tracked event loads it
    through the validator, bumps its counters and writes it back. JSON.parse and
    JSON.stringify are the parameters `parse` and `stringify`; `ToJs` is the JSON
    value of a record, which is what parsing its stringified text gives back. */
module Social {
  import opened JsBuiltins
  import opened Validation
  import Detect
  import VkPlatform

  const ANALYTICS_KEY: string := "krevetka_analytics"

  // ---------------------------------------------------------------------------
  // Share link

  /** The share-to-friend link: `appUrl#card=<id>&mode=<mode>` for a truthy card
      id, the bare app link otherwise. */
  function ShareUrl(appUrl: string, cardId: Option<int>, mode: string): (url: string)
    ensures StartsWith(url, appUrl)
    ensures (cardId.None? || cardId.value == 0) <==> url == appUrl
  {
    if cardId.Some? && cardId.value != 0 then appUrl + "#card=" + IntToString(cardId.value) + "&mode=" + mode
    else appUrl
  }

  /** The link in the friend message is the one the host adapter shares. */
  lemma ShareUrlIsHostLink(cardId: Option<int>, mode: string)
    ensures ShareUrl(VkPlatform.APP_URL, cardId, mode) ==
            VkPlatform.BuildUrl(Some(VkPlatform.ShareContext(cardId, Some(mode))))
  {
  }

  // ---------------------------------------------------------------------------
  // Counters

  /** `if (!m[k]) m[k] = 0; m[k]++` */
  function Bump(m: map<string, int>, k: string): (r: map<string, int>)
    ensures r.Keys == m.Keys + {k}
    ensures r[k] == (if k in m then m[k] else 0) + 1
    ensures forall j :: j in m && j != k ==> r[j] == m[j]
  {
    m[k := (if k in m then m[k] else 0) + 1]
  }

  /** `if (m[k] !== undefined) m[k]++`: only a counter that exists moves. */
  function BumpExisting(m: map<string, int>, k: string): (r: map<string, int>)
    ensures r.Keys == m.Keys
    ensures k in m ==> r[k] == m[k] + 1
    ensures forall j :: j in m && j != k ==> r[j] == m[j]
  {
    if k in m then m[k := m[k] + 1] else m
  }


  function CountersOrDefault(m: Option<map<string, int>>, d: map<string, int>): map<string, int> {
    if m.Some? then m.value else d
  }

  /** The optional fields of a tracked event; None or "" is an absent field. */
  datatype EventData = EventData(rarity: Option<string>, mode: Option<string>, deck: Option<string>)

  predicate Given(f: Option<string>) {
    f.Some? && f.value != ""
  }

  /** The record update trackEvent applies after loading: one more `name`
      event, the rarity, mode and deck counters of `data`, and the visit times. */
  function TrackEventRecord(a: Analytics, name: string, data: EventData, now: string): (r: Analytics)
    ensures r.events.Some? && r.events.value == Bump(CountersOrDefault(a.events, map[]), name)
    ensures Given(data.rarity) ==> r.rarities == Some(BumpExisting(CountersOrDefault(a.rarities, DefaultRarities), data.rarity.value))
    ensures !Given(data.rarity) ==> r.rarities == a.rarities
    ensures Given(data.mode) ==> r.modes == Some(BumpExisting(CountersOrDefault(a.modes, DefaultModes), data.mode.value))
    ensures !Given(data.mode) ==> r.modes == a.modes
    ensures Given(data.deck) ==> r.decks == Some(Bump(CountersOrDefault(a.decks, map[]), data.deck.value))
    ensures !Given(data.deck) ==> r.decks == a.decks
    ensures r.firstVisit == (if Given(a.firstVisit) then a.firstVisit else Some(now))
    ensures r.lastVisit == Some(now)
    ensures r.sessions == a.sessions && r.lastSessionStart == a.lastSessionStart && r.platform == a.platform
  {
    a.(events := Some(Bump(CountersOrDefault(a.events, map[]), name)),
       rarities := if Given(data.rarity) then Some(BumpExisting(CountersOrDefault(a.rarities, DefaultRarities), data.rarity.value)) else a.rarities,
       modes := if Given(data.mode) then Some(BumpExisting(CountersOrDefault(a.modes, DefaultModes), data.mode.value)) else a.modes,
       decks := if Given(data.deck) then Some(Bump(CountersOrDefault(a.decks, map[]), data.deck.value)) else a.decks,
       firstVisit := if Given(a.firstVisit) then a.firstVisit else Some(now),
       lastVisit := Some(now))
  }

  /** The count of `name` in an events object, 0 when it has none. */
  function Count(events: Option<map<string, int>>, name: string): int {
    if events.Some? && name in events.value then events.value[name] else 0
  }

  /** A tracked event is counted once more, and no other event count moves. */
  lemma TrackEventCountsOnce(a: Analytics, name: string, other: string, data: EventData, now: string)
    requires a.events.Some? && other != name
    ensures var r := TrackEventRecord(a, name, data, now).events.value;
            r[name] == (if name in a.events.value then a.events.value[name] else 0) + 1 &&
            (other in r <==> other in a.events.value) &&
            (other in r ==> r[other] == a.events.value[other])
  {
  }

  /** The record update trackSessionStart applies after loading. */
  function TrackSessionRecord(a: Analytics, now: string, platform: Detect.Platform): (r: Analytics)
    ensures r.sessions == a.sessions + 1
    ensures r.lastSessionStart == Some(now) && r.platform == Some(Detect.PlatformName(platform))
    ensures r.events == a.events && r.firstVisit == a.firstVisit && r.lastVisit == a.lastVisit
    ensures r.rarities == a.rarities && r.modes == a.modes && r.decks == a.decks
  {
    a.(sessions := a.sessions + 1, lastSessionStart := Some(now), platform := Some(Detect.PlatformName(platform)))
  }

  // ---------------------------------------------------------------------------
  // Persistence

  /** The roll-up as it reads back: `stored[KEY]` when present and non-empty goes
      through safeJsonParse (fallback `{}`) and the validator; otherwise the
      empty roll-up. */
  function LoadAnalytics(stored: Option<string>, parse: string -> Option<JsValue>): (r: Analytics)
    ensures (stored.None? || stored.value == "") ==> r == EmptyAnalytics
    ensures stored.Some? && stored.value != "" && parse(stored.value).None? ==> r == ValidateAnalytics(Obj(map[]))
    ensures r.sessions <= MaxSessions
  {
    if stored.Some? && stored.value != "" then ValidateAnalytics(SafeJsonParse(Str(stored.value), Obj(map[]), parse))
    else EmptyAnalytics
  }

  function CountersJs(m: map<string, int>): (v: JsValue)
    ensures Counters(v) == m
  {
    var v := Obj(map k | k in m :: Num(m[k]));
    assert Counters(v).Keys == m.Keys;
    v
  }

  function StringOrNull(s: Option<string>): JsValue {
    if s.Some? then Str(s.value) else Null
  }

  function StringOrAbsent(s: Option<string>): JsValue {
    if s.Some? then Str(s.value) else Undefined
  }

  function CountersOrAbsent(m: Option<map<string, int>>): JsValue {
    if m.Some? then CountersJs(m.value) else Undefined
  }

  /** The JSON value of a roll-up. A field holding `Undefined` is one
      JSON.stringify leaves out, which reads back as absent; a null events
      object and missing visit times are written as null. */
  function ToJs(a: Analytics): JsValue {
    Obj(map[
      "events" := if a.events.Some? then CountersJs(a.events.value) else Null,
      "sessions" := Num(a.sessions),
      "firstVisit" := StringOrNull(a.firstVisit),
      "lastVisit" := StringOrNull(a.lastVisit),
      "rarities" := CountersOrAbsent(a.rarities),
      "modes" := CountersOrAbsent(a.modes),
      "decks" := CountersOrAbsent(a.decks),
      "lastSessionStart" := StringOrAbsent(a.lastSessionStart),
      "platform" := StringOrAbsent(a.platform)])
  }

  lemma ToJsFields(a: Analytics)
    ensures Truthy(ToJs(a)) && IsObjectType(ToJs(a))
    ensures Prop(ToJs(a), "events") == (if a.events.Some? then CountersJs(a.events.value) else Null)
    ensures Prop(ToJs(a), "sessions") == Num(a.sessions)
    ensures Prop(ToJs(a), "firstVisit") == StringOrNull(a.firstVisit)
    ensures Prop(ToJs(a), "lastVisit") == StringOrNull(a.lastVisit)
    ensures Prop(ToJs(a), "rarities") == CountersOrAbsent(a.rarities)
    ensures Prop(ToJs(a), "modes") == CountersOrAbsent(a.modes)
    ensures Prop(ToJs(a), "decks") == CountersOrAbsent(a.decks)
  {
  }

  /** What the validator keeps of a written roll-up: absent counters take their
      defaults, and the session fields are dropped. */
  function Reloaded(a: Analytics): Analytics {
    a.(rarities := Some(CountersOrDefault(a.rarities, DefaultRarities)),
       modes := Some(CountersOrDefault(a.modes, DefaultModes)),
       decks := Some(CountersOrDefault(a.decks, map[])),
       lastSessionStart := None,
       platform := None)
  }

  /** Validating the JSON of a roll-up gives the roll-up back, except that the
      validator drops the session fields and fills in absent counters. */
  lemma ValidateToJs(a: Analytics)
    requires a.sessions <= MaxSessions
    requires a.firstVisit != Some("") && a.lastVisit != Some("")
    ensures ValidateAnalytics(ToJs(a)) == Reloaded(a)
  {
    var v := ToJs(a);
    ToJsFields(a);
    var r := ValidateAnalytics(v);
    assert r.events == a.events;
    assert r.sessions == a.sessions;
    assert r.firstVisit == a.firstVisit && r.lastVisit == a.lastVisit;
    assert r.rarities == Some(CountersOrDefault(a.rarities, DefaultRarities));
    assert r.modes == Some(CountersOrDefault(a.modes, DefaultModes));
    assert r.decks == Some(CountersOrDefault(a.decks, map[]));
  }

  /** A written roll-up reads back as `Reloaded`, when JSON.parse inverts
      JSON.stringify on it. */
  lemma LoadAfterSave(a: Analytics, parse: string -> Option<JsValue>, stringify: Analytics -> string)
    requires parse(stringify(a)) == Some(ToJs(a)) && stringify(a) != ""
    requires a.sessions <= MaxSessions
    requires a.firstVisit != Some("") && a.lastVisit != Some("")
    ensures LoadAnalytics(Some(stringify(a)), parse) == Reloaded(a)
  {
    ValidateToJs(a);
  }

  /** The key-value storage the roll-up lives in. */
  class AnalyticsLog {
    var store: map<string, string>

    constructor (initial: map<string, string>)
      ensures store == initial
    {
      store := initial;
    }

    function Stored(): Option<string>
      reads this
    {
      if ANALYTICS_KEY in store then Some(store[ANALYTICS_KEY]) else None
    }

    /** trackEvent: load, count the event, write the roll-up back. A storage
        read that throws (`readFails`) is swallowed and nothing is written. */
    method TrackEvent(name: string, data: EventData, now: string, readFails: bool,
                      parse: string -> Option<JsValue>, stringify: Analytics -> string)
      modifies this
      ensures readFails ==> store == old(store)
      ensures !readFails ==>
        store == old(store)[ANALYTICS_KEY := stringify(TrackEventRecord(LoadAnalytics(old(Stored()), parse), name, data, now))]
    {
      if readFails {
        return;
      }
      var analytics := LoadAnalytics(Stored(), parse);
      analytics := TrackEventRecord(analytics, name, data, now);
      store := store[ANALYTICS_KEY := stringify(analytics)];
    }

    /** trackSessionStart: load, count the session, stamp it, write back. A
        storage read that throws (`readFails`) is swallowed and nothing is
        written. */
    method TrackSessionStart(now: string, platform: Detect.Platform, readFails: bool,
                             parse: string -> Option<JsValue>, stringify: Analytics -> string)
      modifies this
      ensures readFails ==> store == old(store)
      ensures !readFails ==>
        store == old(store)[ANALYTICS_KEY := stringify(TrackSessionRecord(LoadAnalytics(old(Stored()), parse), now, platform))]
    {
      if readFails {
        return;
      }
      var analytics := LoadAnalytics(Stored(), parse);
      analytics := TrackSessionRecord(analytics, now, platform);
      store := store[ANALYTICS_KEY := stringify(analytics)];
    }

    /** getAnalytics: the validated roll-up, or the empty one when nothing is
        stored or the storage read throws (`readFails`). */
    function GetAnalytics(readFails: bool, parse: string -> Option<JsValue>): (r: Analytics)
      reads this
      ensures (readFails || Stored().None? || Stored().value == "") ==> r == EmptyAnalytics
      ensures r.sessions <= MaxSessions
    {
      if readFails then EmptyAnalytics else LoadAnalytics(Stored(), parse)
    }
  }

  /** Tracking an event and reading the roll-up back shows that event counted
      once more than before (JSON.parse inverting JSON.stringify). */
  lemma TrackEventThenRead(stored: Option<string>, name: string, data: EventData, now: string,
                           parse: string -> Option<JsValue>, stringify: Analytics -> string)
    requires now != ""
    requires var r := TrackEventRecord(LoadAnalytics(stored, parse), name, data, now);
             parse(stringify(r)) == Some(ToJs(r)) && stringify(r) != ""
    ensures var before := LoadAnalytics(stored, parse);
            var after := LoadAnalytics(Some(stringify(TrackEventRecord(before, name, data, now))), parse);
            Count(after.events, name) == Count(before.events, name) + 1
  {
    var before := LoadAnalytics(stored, parse);
    var r := TrackEventRecord(before, name, data, now);
    assert before.firstVisit != Some("") by {
      if stored.Some? && stored.value != "" {
        assert before == ValidateAnalytics(SafeJsonParse(Str(stored.value), Obj(map[]), parse));
      }
    }
    LoadAfterSave(r, parse, stringify);
  }
}
