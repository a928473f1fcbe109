/** Levels and experience points: a ten-tier threshold table, XP capped at
    100000, a level-up signal when a gain crosses a threshold, and a once-a-day
    bonus. The state persists as one JSON document under `krevetka_level`;
    JSON.parse and JSON.stringify are the parameters `parse` and `stringify`. */
module Level {
  import opened JsBuiltins
  import opened Validation

  const STORAGE_KEY: string := "krevetka_level"

  datatype Tier = Tier(level: nat, xpRequired: int, title: string, emoji: string)

  const LEVELS: seq<Tier> := [
    Tier(1, 0, "Новичок", "🦐"),
    Tier(2, 50, "Любопытный", "👀"),
    Tier(3, 150, "Искатель правды", "🔍"),
    Tier(4, 300, "Креветочник", "🎯"),
    Tier(5, 500, "Мастер тыков", "👆"),
    Tier(6, 800, "Знаток судеб", "🔮"),
    Tier(7, 1200, "Креветочный гуру", "🧘"),
    Tier(8, 1800, "Легенда океана", "🌊"),
    Tier(9, 2500, "Повелитель креветок", "👑"),
    Tier(10, 3500, "Бог креветок", "⚡")
  ]

  const XP_TAP: int := 10
  const XP_RARE_CARD: int := 25
  const XP_LEGENDARY_CARD: int := 50
  const XP_STREAK_BONUS: int := 5
  const XP_SHARE_STORY: int := 15
  const XP_SHARE_FRIEND: int := 10
  const XP_FIRST_TAP: int := 20
  const XP_DAILY_BONUS: int := 30

  /** The table is ordered: levels count up from 1 and thresholds strictly rise from 0. */
  lemma LevelsOrdered()
    ensures |LEVELS| == 10 && LEVELS[0].xpRequired == 0
    ensures forall k :: 0 <= k < |LEVELS| ==> LEVELS[k].level == k + 1
    ensures forall j, k :: 0 <= j < k < |LEVELS| ==> LEVELS[j].xpRequired < LEVELS[k].xpRequired
  {
  }

  /** `k` is the index of the tier for `xp`: the last tier whose threshold `xp`
      reaches, the first tier when it reaches none. */
  predicate IsTierIndex(xp: int, k: int) {
    0 <= k < |LEVELS| &&
    (k == 0 || LEVELS[k].xpRequired <= xp) &&
    (k + 1 == |LEVELS| || xp < LEVELS[k + 1].xpRequired)
  }

  function TierIndexFrom(xp: int, k: nat): (r: nat)
    requires k < |LEVELS| && (k == 0 || LEVELS[k].xpRequired <= xp)
    ensures IsTierIndex(xp, r) && k <= r
    decreases |LEVELS| - k
  {
    if k + 1 < |LEVELS| && xp >= LEVELS[k + 1].xpRequired then TierIndexFrom(xp, k + 1) else k
  }

  /** The tier index of `xp`, defined by the scan from the first tier. */
  function TierIndex(xp: int): (k: nat)
    ensures IsTierIndex(xp, k)
  {
    TierIndexFrom(xp, 0)
  }

  /** There is one tier index for each xp, so the scan finds it. */
  lemma TierIndexUnique(xp: int, k: int)
    requires IsTierIndex(xp, k)
    ensures k == TierIndex(xp)
  {
    LevelsOrdered();
  }

  /** More XP never means a lower tier. */
  lemma TierIndexMonotone(xp1: int, xp2: int)
    requires xp1 <= xp2
    ensures TierIndex(xp1) <= TierIndex(xp2)
  {
    LevelsOrdered();
  }

  /** Every xp from 0 up reaches at least the first tier's threshold. */
  lemma TierReached(xp: int)
    requires xp >= 0
    ensures LEVELS[TierIndex(xp)].xpRequired <= xp
  {
  }

  /** getLevelByXP: walks the table, keeping the last tier reached and
      stopping at the first one that is not. */
  method GetLevelByXP(xp: int) returns (current: Tier, k: nat)
    ensures k == TierIndex(xp) && current == LEVELS[k]
  {
    k := 0;
    var i := 0;
    while i < |LEVELS|
      invariant 0 <= k < |LEVELS| && k <= i <= |LEVELS|
      invariant k == 0 || LEVELS[k].xpRequired <= xp
      invariant i > 0 ==> k == i - 1
      invariant i < |LEVELS| && i > 0 ==> LEVELS[i - 1].xpRequired <= xp
      decreases |LEVELS| - i
    {
      if xp >= LEVELS[i].xpRequired {
        k := i;
      } else {
        break;
      }
      i := i + 1;
    }
    LevelsOrdered();
    TierIndexUnique(xp, k);
    current := LEVELS[k];
  }

  // ---------------------------------------------------------------------------
  // Progress

  datatype Progress = Progress(current: Tier, next: Option<Tier>, progress: int, xpToNext: int)

  /** getProgress */
  function GetProgress(xp: int): (r: Progress)
    ensures r.current == LEVELS[TierIndex(xp)]
    ensures TierIndex(xp) + 1 == |LEVELS| ==> r.next.None? && r.progress == 100 && r.xpToNext == 0
    ensures TierIndex(xp) + 1 < |LEVELS| ==>
      r.next == Some(LEVELS[TierIndex(xp) + 1]) && r.xpToNext == r.next.value.xpRequired - xp && r.xpToNext > 0
    ensures r.progress <= 100
    ensures xp >= 0 ==> 0 <= r.progress
  {
    var k := TierIndex(xp);
    var current := LEVELS[k];
    if k + 1 == |LEVELS| then Progress(current, None, 100, 0)
    else
      var next := LEVELS[k + 1];
      LevelsOrdered();
      var p := RoundPercent(xp - current.xpRequired, next.xpRequired - current.xpRequired);
      Progress(current, Some(next), if p < 100 then p else 100, next.xpRequired - xp)
  }

  /** Below the top tier the percentage is exactly the rounded share of the
      tier's span already covered (the cap at 100 never cuts it): 0 at the
      tier's threshold. */
  lemma ProgressWithinTier(xp: int)
    requires xp >= 0 && TierIndex(xp) + 1 < |LEVELS|
    ensures var k := TierIndex(xp);
            var span := LEVELS[k + 1].xpRequired - LEVELS[k].xpRequired;
            span > 0 &&
            GetProgress(xp).progress == RoundPercent(xp - LEVELS[k].xpRequired, span) &&
            (xp == LEVELS[k].xpRequired ==> GetProgress(xp).progress == 0)
  {
    LevelsOrdered();
    var k := TierIndex(xp);
    var span := LEVELS[k + 1].xpRequired - LEVELS[k].xpRequired;
    RoundPercentOfShare(xp - LEVELS[k].xpRequired, span);
  }

  // ---------------------------------------------------------------------------
  // Persistence

  /** The JSON value the tracker writes: `{ xp, lastDailyBonus }`. */
  function LevelJs(d: LevelData): JsValue {
    Obj(map["xp" := Num(d.xp), "lastDailyBonus" := if d.lastDailyBonus.Some? then Str(d.lastDailyBonus.value) else Null])
  }

  /** A written record validates back to itself when its xp is in range. */
  lemma LevelDataRoundTrip(d: LevelData)
    requires 0 <= d.xp <= MaxXP
    ensures ValidateLevelData(LevelJs(d)) == d
  {
    assert Prop(LevelJs(d), "xp") == Num(d.xp);
  }

  /** The record checkDailyBonus leaves in storage, as written. React queues
      `setLastDailyBonus(today)` first, so `addXP`'s `setXP` updater runs at the
      next render, after the explicit `save(xp + 30, today)`; its `save(newXP)`
      then writes the capped XP with the bonus date of the old render. */
  function DailyBonusFinalRecordAsWritten(xp: int, lastDailyBonus: Option<string>): (d: LevelData)
    ensures d.xp == NewXP(xp, XP_DAILY_BONUS)
    ensures d.lastDailyBonus == lastDailyBonus
  {
    LevelData(NewXP(xp, XP_DAILY_BONUS), lastDailyBonus)
  }

  /** As written, the record left after a granted bonus does not carry today,
      so after a reload on the same day the bonus is granted again. */
  lemma DailyBonusGrantedAgainAsWritten(xp: int, lastDailyBonus: Option<string>, today: string)
    requires 0 <= xp <= MaxXP && lastDailyBonus != Some(today)
    ensures var reloaded := ValidateLevelData(LevelJs(DailyBonusFinalRecordAsWritten(xp, lastDailyBonus)));
            reloaded.lastDailyBonus == lastDailyBonus && reloaded.lastDailyBonus != Some(today)
  {
    LevelDataRoundTrip(DailyBonusFinalRecordAsWritten(xp, lastDailyBonus));
  }

  /** The record checkDailyBonus evidently means to write: the XP the bonus
      leaves the tracker with, and today. */
  function DailyBonusRecord(xp: int, today: string): (d: LevelData)
    ensures d.xp == NewXP(xp, XP_DAILY_BONUS) && d.xp <= MaxXP
    ensures d.lastDailyBonus == Some(today)
  {
    LevelData(NewXP(xp, XP_DAILY_BONUS), Some(today))
  }

  /** `Math.min(prev + amount, 100000)` */
  function NewXP(prev: int, amount: int): (x: int)
    ensures x <= MaxXP
    ensures x == prev + amount || (x == MaxXP && prev + amount > MaxXP)
  {
    if prev + amount < MaxXP then prev + amount else MaxXP
  }

  /** A gain never lowers the tier. */
  lemma GainNeverLowersTier(prev: int, amount: int)
    requires amount >= 0 && prev <= MaxXP
    ensures TierIndex(prev) <= TierIndex(NewXP(prev, amount))
  {
    TierIndexMonotone(prev, NewXP(prev, amount));
  }

  /** The level tracker: the hook's state and the key-value storage. */
  class LevelTracker {
    var xp: int
    var levelInfo: Progress
    var justLeveledUp: Option<Tier>
    var lastDailyBonus: Option<string>
    var store: map<string, string>

    predicate Valid()
      reads this
    {
      xp <= MaxXP && levelInfo == GetProgress(xp)
    }

    constructor (initial: map<string, string>)
      ensures Valid()
      ensures xp == 0 && justLeveledUp.None? && lastDailyBonus.None? && store == initial
    {
      xp := 0;
      levelInfo := GetProgress(0);
      justLeveledUp := None;
      lastDailyBonus := None;
      store := initial;
    }

    /** The load effect: a stored, non-empty document replaces xp and the
        bonus date with their validated values. */
    method Load(parse: string -> Option<JsValue>)
      requires Valid()
      modifies this
      ensures Valid()
      ensures store == old(store) && justLeveledUp == old(justLeveledUp)
      ensures STORAGE_KEY in store && store[STORAGE_KEY] != "" ==>
        var data := ValidateLevelData(SafeJsonParse(Str(store[STORAGE_KEY]), Null, parse));
        xp == data.xp && lastDailyBonus == data.lastDailyBonus && 0 <= xp
      ensures !(STORAGE_KEY in store && store[STORAGE_KEY] != "") ==>
        xp == old(xp) && lastDailyBonus == old(lastDailyBonus)
    {
      if STORAGE_KEY in store && store[STORAGE_KEY] != "" {
        var data := ValidateLevelData(SafeJsonParse(Str(store[STORAGE_KEY]), Null, parse));
        xp := data.xp;
        levelInfo := GetProgress(data.xp);
        lastDailyBonus := data.lastDailyBonus;
      }
    }

    /** addXP: xp becomes min(xp + amount, 100000); a higher tier than before is
        announced with the final tier; the new xp is written with the current
        bonus date. */
    method AddXP(amount: int, stringify: LevelData -> string)
      requires Valid()
      modifies this
      ensures Valid()
      ensures xp == NewXP(old(xp), amount)
      ensures TierIndex(xp) > TierIndex(old(xp)) ==> justLeveledUp == Some(LEVELS[TierIndex(xp)])
      ensures TierIndex(xp) <= TierIndex(old(xp)) ==> justLeveledUp == old(justLeveledUp)
      ensures lastDailyBonus == old(lastDailyBonus)
      ensures store == old(store)[STORAGE_KEY := stringify(LevelData(xp, lastDailyBonus))]
    {
      var oldLevel, oldIndex := GetLevelByXP(xp);
      var newXP := NewXP(xp, amount);
      var newLevel, newIndex := GetLevelByXP(newXP);
      if newLevel.level > oldLevel.level {
        LevelsOrdered();
        justLeveledUp := Some(newLevel);
      } else {
        LevelsOrdered();
      }
      levelInfo := GetProgress(newXP);
      store := store[STORAGE_KEY := stringify(LevelData(newXP, lastDailyBonus))];
      xp := newXP;
    }

    /** checkDailyBonus: once per day (`today` differs from the recorded day),
        30 XP are added through addXP, today is recorded and the record holding
        the capped XP and today is the one left in storage (the corrected write
        order; see DailyBonusFinalRecordAsWritten for the order React gives). */
    method CheckDailyBonus(today: string, stringify: LevelData -> string) returns (granted: bool)
      requires Valid()
      modifies this
      ensures Valid()
      ensures granted <==> old(lastDailyBonus) != Some(today)
      ensures !granted ==> xp == old(xp) && store == old(store) && justLeveledUp == old(justLeveledUp)
      ensures !granted ==> lastDailyBonus == old(lastDailyBonus)
      ensures granted ==> xp == NewXP(old(xp), XP_DAILY_BONUS) && lastDailyBonus == Some(today)
      ensures granted && TierIndex(xp) > TierIndex(old(xp)) ==> justLeveledUp == Some(LEVELS[TierIndex(xp)])
      ensures granted && TierIndex(xp) <= TierIndex(old(xp)) ==> justLeveledUp == old(justLeveledUp)
      ensures granted ==> store == old(store)[STORAGE_KEY := stringify(DailyBonusRecord(old(xp), today))]
    {
      if lastDailyBonus == Some(today) {
        return false;
      }
      var before := xp;
      AddXP(XP_DAILY_BONUS, stringify);
      lastDailyBonus := Some(today);
      store := store[STORAGE_KEY := stringify(DailyBonusRecord(before, today))];
      granted := true;
    }

    /** dismissLevelUp */
    method DismissLevelUp()
      modifies this
      ensures justLeveledUp.None?
      ensures xp == old(xp) && levelInfo == old(levelInfo) && lastDailyBonus == old(lastDailyBonus) && store == old(store)
    {
      justLeveledUp := None;
    }
  }

  /** The record the bonus writes reads back as itself, so after a reload the
      same day's check grants nothing. */
  lemma DailyBonusSurvivesReload(xp: int, today: string)
    requires 0 <= xp <= MaxXP
    ensures ValidateLevelData(LevelJs(DailyBonusRecord(xp, today))) == DailyBonusRecord(xp, today)
    ensures ValidateLevelData(LevelJs(DailyBonusRecord(xp, today))).lastDailyBonus == Some(today)
  {
    LevelDataRoundTrip(DailyBonusRecord(xp, today));
  }
}
