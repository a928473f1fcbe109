/** The validation layer: every value read back from the key-value store goes
    through one of these before use. They coerce untrusted stored data into
    bounded shapes and never fail. JSON.parse is the parameter `parse`, whose
    None result stands for the exception it throws on malformed text. */
module Validation {
  import opened JsBuiltins
  import opened Cards

  const MaxCollection: nat := 100
  const MaxDiagnosisLength: nat := 500
  const MaxXP: int := 100000
  const MaxStreak: int := 365
  const MaxSessions: int := 10000
  const MaxAchievementIdLength: nat := 50

  /** safeJsonParse(str, fallback): the fallback unless `str` is a non-empty
      string that `parse` accepts. */
  function SafeJsonParse(str: JsValue, fallback: JsValue, parse: string -> Option<JsValue>): (r: JsValue)
    ensures !(str.Str? && str.s != "") ==> r == fallback
    ensures str.Str? && str.s != "" && parse(str.s).Some? ==> r == parse(str.s).value
    ensures str.Str? && str.s != "" && parse(str.s).None? ==> r == fallback
  {
    if !Truthy(str) || !str.Str? then fallback
    else match parse(str.s)
      case None => fallback
      case Some(v) => v
  }

  // ---------------------------------------------------------------------------
  // Collection

  /** The test validateCollection applies to each stored entry. */
  predicate IsValidEntry(item: JsValue) {
    && Truthy(item)
    && Prop(item, "id").Num?
    && Prop(item, "mode").Str?
    && Prop(item, "mode").s in ["angry", "soft"]
    && Prop(item, "diagnosis").Str?
    && Utf16Length(Prop(item, "diagnosis").s) < MaxDiagnosisLength
  }

  /** `items.filter(IsValidEntry)` */
  function ValidItems(items: seq<JsValue>): (r: seq<JsValue>)
    ensures |r| <= |items|
    ensures forall x :: x in r ==> IsValidEntry(x)
    ensures forall x :: x in items && IsValidEntry(x) ==> x in r
    ensures forall x :: x in r ==> x in items
  {
    if items == [] then []
    else (if IsValidEntry(items[0]) then [items[0]] else []) + ValidItems(items[1..])
  }

  /** The filter keeps every valid entry as often as it is stored, and no other. */
  lemma {:induction false} ValidItemsCounts(items: seq<JsValue>)
    ensures forall x :: multiset(ValidItems(items))[x] == (if IsValidEntry(x) then multiset(items)[x] else 0)
  {
    if items != [] {
      ValidItemsCounts(items[1..]);
      assert items == [items[0]] + items[1..];
      assert ValidItems(items) == (if IsValidEntry(items[0]) then [items[0]] else []) + ValidItems(items[1..]);
    }
  }

  lemma {:induction false} ValidItemsKeepsOrder(items: seq<JsValue>)
    ensures IsSubsequence(ValidItems(items), items)
  {
    if items != [] {
      ValidItemsKeepsOrder(items[1..]);
      var rest := ValidItems(items[1..]);
      if IsValidEntry(items[0]) {
        assert ValidItems(items) == [items[0]] + rest;
        assert ([items[0]] + rest)[1..] == rest;
      } else {
        // rest holds only valid entries, so it cannot start with items[0]
        assert ValidItems(items) == rest;
        assert rest != [] ==> rest[0] in rest && rest[0] != items[0];
      }
    }
  }

  /** validateCollection: [] for a non-array; otherwise the last 100 valid
      entries, in their stored order. */
  function ValidateCollection(data: JsValue): (r: seq<JsValue>)
    ensures !data.Arr? ==> r == []
    ensures |r| <= MaxCollection
    ensures forall x :: x in r ==> IsValidEntry(x)
    ensures data.Arr? ==>
      var valid := ValidItems(data.items);
      |r| == (if |valid| <= MaxCollection then |valid| else MaxCollection) &&
      r == valid[|valid| - |r|..]
  {
    if !data.Arr? then [] else TakeLast(ValidItems(data.items), MaxCollection)
  }

  lemma {:induction false} ValidItemsOfValid(items: seq<JsValue>)
    requires forall x :: x in items ==> IsValidEntry(x)
    ensures ValidItems(items) == items
  {
    if items != [] {
      ValidItemsOfValid(items[1..]);
    }
  }

  /** Validating an already validated collection changes nothing. */
  lemma ValidateCollectionIdempotent(data: JsValue)
    ensures ValidateCollection(Arr(ValidateCollection(data))) == ValidateCollection(data)
  {
    ValidItemsOfValid(ValidateCollection(data));
  }

  /** The typed entry behind a stored entry that passed validation. */
  function ToEntry(item: JsValue): (e: Entry)
    requires IsValidEntry(item)
    ensures e.id == Prop(item, "id").n
    ensures ModeName(e.mode) == Prop(item, "mode").s
    ensures e.diagnosis == Prop(item, "diagnosis").s && Utf16Length(e.diagnosis) < MaxDiagnosisLength
  {
    Entry(Prop(item, "id").n,
          if Prop(item, "mode").s == "angry" then Angry else Soft,
          Prop(item, "diagnosis").s)
  }

  // ---------------------------------------------------------------------------
  // Level

  datatype LevelData = LevelData(xp: int, lastDailyBonus: Option<string>)

  /** validateLevelData */
  function ValidateLevelData(data: JsValue): (r: LevelData)
    ensures !(Truthy(data) && IsObjectType(data)) ==> r == LevelData(0, None)
    ensures 0 <= r.xp <= MaxXP
    ensures Prop(data, "xp").Num? && 0 <= Prop(data, "xp").n <= MaxXP ==> r.xp == Prop(data, "xp").n
    ensures r.lastDailyBonus.Some? <==> Prop(data, "lastDailyBonus").Str?
    ensures r.lastDailyBonus.Some? ==> r.lastDailyBonus.value == Prop(data, "lastDailyBonus").s
  {
    if !Truthy(data) || !IsObjectType(data) then LevelData(0, None)
    else
      var xp := Prop(data, "xp");
      var last := Prop(data, "lastDailyBonus");
      LevelData(if xp.Num? then Clamp(xp.n, 0, MaxXP) else 0,
                if last.Str? then Some(last.s) else None)
  }

  // ---------------------------------------------------------------------------
  // Streak

  datatype StreakData = StreakData(streak: int, lastDate: Option<string>)

  /** validateStreakData over the two stored strings (None: key absent). */
  function ValidateStreakData(streakCount: Option<string>, lastVisitDate: Option<string>): (r: StreakData)
    ensures 0 <= r.streak <= MaxStreak
    ensures (streakCount.None? || ParseInt(streakCount.value).None?) ==> r.streak == 0
    ensures r.lastDate.Some? <==> (lastVisitDate.Some? && lastVisitDate.value != "")
    ensures r.lastDate.Some? ==> r.lastDate == lastVisitDate
  {
    StreakData(Clamp(ParseIntOrZero(streakCount), 0, MaxStreak),
               if lastVisitDate.Some? && lastVisitDate.value != "" then lastVisitDate else None)
  }

  /** A streak count written as String(n) with its date reads back unchanged. */
  lemma StreakDataRoundTrip(n: int, date: string)
    requires 0 <= n <= MaxStreak && date != ""
    ensures ValidateStreakData(Some(IntToString(n)), Some(date)) == StreakData(n, Some(date))
  {
    ParseIntOfIntToString(n);
  }

  // ---------------------------------------------------------------------------
  // Analytics

  /** The local analytics roll-up. A field that is None is absent from the
      object; `events` is also None when the stored value was null. */
  datatype Analytics = Analytics(
    events: Option<map<string, int>>,
    sessions: int,
    firstVisit: Option<string>,
    lastVisit: Option<string>,
    rarities: Option<map<string, int>>,
    modes: Option<map<string, int>>,
    decks: Option<map<string, int>>,
    lastSessionStart: Option<string>,
    platform: Option<string>)

  /** `{ events: {}, sessions: 0 }` */
  const EmptyAnalytics := Analytics(Some(map[]), 0, None, None, None, None, None, None, None)

  const DefaultRarities: map<string, int> := map["common" := 0, "rare" := 0, "legendary" := 0]
  const DefaultModes: map<string, int> := map["angry" := 0, "soft" := 0]

  /** The numeric fields of a stored counter object, with their values. */
  function Counters(v: JsValue): (m: map<string, int>)
    ensures forall k :: k in m <==> (v.Obj? && k in v.fields && v.fields[k].Num?)
    ensures forall k :: k in m ==> m[k] == v.fields[k].n
  {
    if v.Obj? then map k | k in v.fields && v.fields[k].Num? :: v.fields[k].n else map[]
  }

  /** `v || null` for a stored timestamp string. */
  function StringOrNone(v: JsValue): Option<string> {
    if v.Str? && v.s != "" then Some(v.s) else None
  }

  /** `v || d` for a stored counter object. */
  function CountersOr(v: JsValue, d: map<string, int>): map<string, int> {
    if Truthy(v) then Counters(v) else d
  }

  /** validateAnalytics */
  function ValidateAnalytics(data: JsValue): (r: Analytics)
    ensures !(Truthy(data) && IsObjectType(data)) ==> r == EmptyAnalytics
    ensures r.sessions <= MaxSessions
    ensures !Prop(data, "sessions").Num? ==> r.sessions == 0
    ensures Prop(data, "sessions").Num? && Prop(data, "sessions").n <= MaxSessions ==> r.sessions == Prop(data, "sessions").n
    ensures r.events.None? <==> (Truthy(data) && IsObjectType(data) && Prop(data, "events").Null?)
    ensures Truthy(data) && IsObjectType(data) && IsObjectType(Prop(data, "events")) && !Prop(data, "events").Null? ==>
      r.events == Some(Counters(Prop(data, "events")))
    ensures Truthy(data) && IsObjectType(data) && !IsObjectType(Prop(data, "events")) ==> r.events == Some(map[])
    ensures Truthy(data) && IsObjectType(data) ==>
      && r.rarities == Some(if Truthy(Prop(data, "rarities")) then Counters(Prop(data, "rarities")) else DefaultRarities)
      && r.modes == Some(if Truthy(Prop(data, "modes")) then Counters(Prop(data, "modes")) else DefaultModes)
      && r.decks == Some(if Truthy(Prop(data, "decks")) then Counters(Prop(data, "decks")) else map[])
      && r.firstVisit == StringOrNone(Prop(data, "firstVisit"))
      && r.lastVisit == StringOrNone(Prop(data, "lastVisit"))
    ensures r.lastSessionStart.None? && r.platform.None?
  {
    if !Truthy(data) || !IsObjectType(data) then EmptyAnalytics
    else
      var events := Prop(data, "events");
      var sessions := Prop(data, "sessions");
      Analytics(
        if events.Null? then None else if IsObjectType(events) then Some(Counters(events)) else Some(map[]),
        if sessions.Num? then (if sessions.n < MaxSessions then sessions.n else MaxSessions) else 0,
        StringOrNone(Prop(data, "firstVisit")),
        StringOrNone(Prop(data, "lastVisit")),
        Some(CountersOr(Prop(data, "rarities"), DefaultRarities)),
        Some(CountersOr(Prop(data, "modes"), DefaultModes)),
        Some(CountersOr(Prop(data, "decks"), map[])),
        None,
        None)
  }

  // ---------------------------------------------------------------------------
  // Achievements

  /** `items.filter(id => typeof id === 'string' && id.length < 50)`, where
      `length` counts UTF-16 code units. */
  function ShortIds(items: seq<JsValue>): (r: seq<string>)
    ensures |r| <= |items|
    ensures forall x :: x in r <==> (Str(x) in items && Utf16Length(x) < MaxAchievementIdLength)
  {
    if items == [] then []
    else
      var head := if items[0].Str? && Utf16Length(items[0].s) < MaxAchievementIdLength then [items[0].s] else [];
      var rest := ShortIds(items[1..]);
      assert forall x :: Str(x) in items <==> (Str(x) == items[0] || Str(x) in items[1..]);
      head + rest
  }

  /** Every short string id is kept as often as it is stored, and nothing else. */
  lemma {:induction false} ShortIdsCounts(items: seq<JsValue>)
    ensures forall x :: multiset(ShortIds(items))[x] == (if Utf16Length(x) < MaxAchievementIdLength then multiset(items)[Str(x)] else 0)
  {
    if items != [] {
      ShortIdsCounts(items[1..]);
      assert items == [items[0]] + items[1..];
      var head := if items[0].Str? && Utf16Length(items[0].s) < MaxAchievementIdLength then [items[0].s] else [];
      assert ShortIds(items) == head + ShortIds(items[1..]);
    }
  }

  /** validateAchievements */
  function ValidateAchievements(data: JsValue): (r: seq<string>)
    ensures !data.Arr? ==> r == []
    ensures data.Arr? ==> forall x :: x in r <==> (Str(x) in data.items && Utf16Length(x) < MaxAchievementIdLength)
  {
    if !data.Arr? then [] else ShortIds(data.items)
  }

  function AsJsStrings(ids: seq<string>): (r: seq<JsValue>)
    ensures |r| == |ids| && forall i :: 0 <= i < |ids| ==> r[i] == Str(ids[i])
  {
    if ids == [] then [] else [Str(ids[0])] + AsJsStrings(ids[1..])
  }

  /** The kept ids are a subsequence of the stored list, in its order. */
  lemma {:induction false} ShortIdsKeepsOrder(items: seq<JsValue>)
    ensures IsSubsequence(AsJsStrings(ShortIds(items)), items)
  {
    if items != [] {
      ShortIdsKeepsOrder(items[1..]);
      var rest := ShortIds(items[1..]);
      if items[0].Str? && Utf16Length(items[0].s) < MaxAchievementIdLength {
        assert ShortIds(items) == [items[0].s] + rest;
        assert AsJsStrings(ShortIds(items))[1..] == AsJsStrings(rest);
      } else {
        // every kept id is a short string, so the rest cannot start with items[0]
        assert ShortIds(items) == rest;
        assert rest != [] ==> rest[0] in rest && AsJsStrings(rest)[0] != items[0];
      }
    }
  }

  lemma {:induction false} ShortIdsOfShort(ids: seq<string>)
    requires forall x :: x in ids ==> Utf16Length(x) < MaxAchievementIdLength
    ensures ShortIds(AsJsStrings(ids)) == ids
  {
    if ids != [] {
      var items := AsJsStrings(ids);
      assert items[1..] == AsJsStrings(ids[1..]);
      ShortIdsOfShort(ids[1..]);
      ShortIdsKeepsShortHead(items);
      assert [ids[0]] + ids[1..] == ids;
    }
  }

  lemma ShortIdsKeepsShortHead(items: seq<JsValue>)
    requires items != [] && items[0].Str? && Utf16Length(items[0].s) < MaxAchievementIdLength
    ensures ShortIds(items) == [items[0].s] + ShortIds(items[1..])
  {
  }

  /** Validating the stored form of a validated id list gives it back. */
  lemma ValidateAchievementsIdempotent(data: JsValue)
    ensures ValidateAchievements(Arr(AsJsStrings(ValidateAchievements(data)))) == ValidateAchievements(data)
  {
    ShortIdsOfShort(ValidateAchievements(data));
  }
}
