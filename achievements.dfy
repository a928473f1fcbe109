/** Achievements: eight fixed achievements, a list of unlocked ids that only
    grows, and the check run after each tap that unlocks every achievement whose
    condition the tap's context meets. The clock's hour is the parameter `hour`;
    JSON.parse and JSON.stringify are `parse` and `stringify`. */
module Achievements {
  import opened JsBuiltins
  import opened Validation

  const STORAGE_KEY: string := "achievements"

  datatype Achievement = Achievement(id: string, emoji: string, title: string, description: string, secret: bool)

  const ACHIEVEMENTS: seq<Achievement> := [
    Achievement("first_tap", "🦐", "Первый тык", "Тыкнул креветку впервые", false),
    Achievement("angry_streak_5", "🔥", "Пять злых", "5 злых диагнозов подряд", false),
    Achievement("week_streak", "📅", "Неделя без пропусков", "7 дней подряд с креветкой", false),
    Achievement("night_owl", "🦉", "Ночной тыкальщик", "Тык после полуночи", false),
    Achievement("collector_angry", "😈", "Коллекционер злости", "Все 70 карт в злом режиме", false),
    Achievement("collector_soft", "💖", "Коллекционер нежности", "Все 70 карт в мягком режиме", false),
    Achievement("legendary_find", "🌟", "Счастливчик", "Нашёл легендарную карту", true),
    Achievement("rare_hunter", "💎", "Охотник за редкостями", "Нашёл 5 редких карт", true)
  ]

  /** `Object.values(ACHIEVEMENTS).find(a => a.id === id)` */
  function Find(id: string): (r: Option<Achievement>)
    ensures r.Some? <==> exists k :: 0 <= k < |ACHIEVEMENTS| && ACHIEVEMENTS[k].id == id
    ensures r.Some? ==> r.value in ACHIEVEMENTS && r.value.id == id
  {
    FindIn(ACHIEVEMENTS, id)
  }

  function FindIn(list: seq<Achievement>, id: string): (r: Option<Achievement>)
    ensures r.Some? <==> exists k :: 0 <= k < |list| && list[k].id == id
    ensures r.Some? ==> r.value in list && r.value.id == id
  {
    if list == [] then None
    else if list[0].id == id then Some(list[0])
    else
      var rest := FindIn(list[1..], id);
      assert forall k :: 1 <= k < |list| ==> list[k] == list[1..][k - 1];
      rest
  }

  /** The eight ids are distinct, so the table has eight entries and each id
      finds its own. */
  lemma TableIdsDistinct()
    ensures |ACHIEVEMENTS| == 8
    ensures forall j, k :: 0 <= j < k < |ACHIEVEMENTS| ==> ACHIEVEMENTS[j].id != ACHIEVEMENTS[k].id
  {
  }

  /** No duplicate ids in a list of unlocked ids. */
  predicate Distinct(u: seq<string>) {
    forall i, j :: 0 <= i < j < |u| ==> u[i] != u[j]
  }

  /** unlock on the list: an id already unlocked, or not an achievement, leaves
      the list as it is; otherwise the id is appended. */
  function UnlockList(u: seq<string>, id: string): (r: seq<string>)
    ensures id in u || Find(id).None? ==> r == u
    ensures id !in u && Find(id).Some? ==> r == u + [id]
  {
    if id in u then u
    else if Find(id).None? then u
    else u + [id]
  }

  /** Unlocking twice is unlocking once, and unlocking never duplicates an id. */
  lemma UnlockIdempotent(u: seq<string>, id: string)
    ensures UnlockList(UnlockList(u, id), id) == UnlockList(u, id)
    ensures Distinct(u) ==> Distinct(UnlockList(u, id))
  {
    var r := UnlockList(u, id);
    if id !in u && Find(id).Some? {
      assert r[|u|] == id;
      assert id in r;
    }
  }

  // ---------------------------------------------------------------------------
  // The check after a tap

  /** The tap's context; a field the caller leaves out is 0 (`cardRarity`:
      None). */
  datatype Context = Context(totalTaps: int, consecutiveAngry: int, streak: int,
                             collectedAngry: int, collectedSoft: int,
                             cardRarity: Option<string>, rareCount: int)

  /** The condition of the achievement at position `k` of the table, in the
      order checkAndUnlock checks them. */
  predicate Due(k: nat, ctx: Context, hour: int): (r: bool)
    ensures r ==> k < |ACHIEVEMENTS|
  {
    match k
    case 0 => ctx.totalTaps == 1
    case 1 => ctx.consecutiveAngry >= 5
    case 2 => ctx.streak >= 7
    case 3 => 0 <= hour < 5
    case 4 => ctx.collectedAngry >= 70
    case 5 => ctx.collectedSoft >= 70
    case 6 => ctx.cardRarity == Some("legendary")
    case 7 => ctx.rareCount >= 5
    case _ => false
  }

  /** Every id of the table finds its achievement. */
  lemma FindTableId(k: nat)
    requires k < |ACHIEVEMENTS|
    ensures Find(ACHIEVEMENTS[k].id) == Some(ACHIEVEMENTS[k])
  {
    TableIdsDistinct();
    var r := Find(ACHIEVEMENTS[k].id);
    assert r.Some?;
    var j :| 0 <= j < |ACHIEVEMENTS| && ACHIEVEMENTS[j] == r.value;
    assert j == k;
  }

  /** One guarded unlock of checkAndUnlock: when the condition holds and the id
      is not yet unlocked, the id is appended. */
  function Step(u: seq<string>, k: nat, ctx: Context, hour: int): seq<string>
    requires k < |ACHIEVEMENTS|
  {
    var id := ACHIEVEMENTS[k].id;
    if Due(k, ctx, hour) && id !in u then u + [id] else u
  }

  lemma StepFacts(u: seq<string>, k: nat, ctx: Context, hour: int)
    requires k < |ACHIEVEMENTS|
    ensures var r := Step(u, k, ctx, hour);
            (forall x :: x in r <==> x in u || (x == ACHIEVEMENTS[k].id && Due(k, ctx, hour))) &&
            |u| <= |r| && r[..|u|] == u &&
            (Distinct(u) ==> Distinct(r))
  {
  }

  /** checkAndUnlock with each unlock building on the one before: the list
      after the guarded unlocks of the first `n` achievements, in table order. */
  function CheckedPrefix(ctx: Context, hour: int, u: seq<string>, n: nat): seq<string>
    requires n <= |ACHIEVEMENTS|
  {
    if n == 0 then u else Step(CheckedPrefix(ctx, hour, u, n - 1), n - 1, ctx, hour)
  }

  /** The list after all eight guarded unlocks. */
  function CheckedUnlocks(ctx: Context, hour: int, u: seq<string>): seq<string> {
    CheckedPrefix(ctx, hour, u, |ACHIEVEMENTS|)
  }

  /** After the first `n` checks an id is unlocked exactly when it was before or
      it is the id of one of those achievements whose condition holds; the list
      only grows at its end and stays free of duplicates. */
  lemma {:induction false} CheckedPrefixSpec(ctx: Context, hour: int, u: seq<string>, n: nat)
    requires n <= |ACHIEVEMENTS|
    ensures var r := CheckedPrefix(ctx, hour, u, n);
            (forall x :: x in r <==> x in u || exists k :: 0 <= k < n && x == ACHIEVEMENTS[k].id && Due(k, ctx, hour)) &&
            |u| <= |r| && r[..|u|] == u &&
            (Distinct(u) ==> Distinct(r))
  {
    if n > 0 {
      var prev := CheckedPrefix(ctx, hour, u, n - 1);
      CheckedPrefixSpec(ctx, hour, u, n - 1);
      StepFacts(prev, n - 1, ctx, hour);
      var r := CheckedPrefix(ctx, hour, u, n);
      assert r[..|prev|] == prev;
      assert r[..|u|] == prev[..|u|];
    }
  }

  /** After the check an id is unlocked exactly when it was before or it is the
      id of an achievement whose condition holds; the list only grows at its end
      and stays free of duplicates. */
  lemma CheckedUnlocksSpec(ctx: Context, hour: int, u: seq<string>)
    ensures var r := CheckedUnlocks(ctx, hour, u);
            (forall x :: x in r <==> x in u || exists k :: 0 <= k < |ACHIEVEMENTS| && x == ACHIEVEMENTS[k].id && Due(k, ctx, hour)) &&
            |u| <= |r| && r[..|u|] == u &&
            (Distinct(u) ==> Distinct(r))
  {
    CheckedPrefixSpec(ctx, hour, u, |ACHIEVEMENTS|);
  }

  /** Every id the first `n` checks append was not in the list before them. */
  lemma {:induction false} CheckedPrefixAppendsNew(ctx: Context, hour: int, u: seq<string>, n: nat)
    requires n <= |ACHIEVEMENTS|
    ensures var r := CheckedPrefix(ctx, hour, u, n);
            |u| <= |r| && r[..|u|] == u &&
            forall i :: |u| <= i < |r| ==> r[i] !in u
  {
    if n > 0 {
      var prev := CheckedPrefix(ctx, hour, u, n - 1);
      CheckedPrefixAppendsNew(ctx, hour, u, n - 1);
      StepFacts(prev, n - 1, ctx, hour);
      var r := CheckedPrefix(ctx, hour, u, n);
      assert r[..|prev|] == prev;
      assert r[..|u|] == prev[..|u|];
      if |r| > |prev| {
        var id := ACHIEVEMENTS[n - 1].id;
        assert r == prev + [id] && id !in prev;
        assert forall x :: x in u ==> x in prev by {
          forall x | x in u ensures x in prev {
            var j :| 0 <= j < |u| && u[j] == x;
            assert prev[j] == x;
          }
        }
      }
    }
  }

  /** The ids the check returns were not unlocked before it, whatever the
      stored list holds. */
  lemma GainedAreNew(ctx: Context, hour: int, u: seq<string>)
    ensures |u| <= |CheckedUnlocks(ctx, hour, u)| &&
            forall x :: x in CheckedUnlocks(ctx, hour, u)[|u|..] ==> x !in u
  {
    var r := CheckedUnlocks(ctx, hour, u);
    CheckedPrefixAppendsNew(ctx, hour, u, |ACHIEVEMENTS|);
    forall x | x in r[|u|..]
      ensures x !in u
    {
      var i :| 0 <= i < |r| - |u| && r[|u|..][i] == x;
      assert r[|u| + i] == x;
    }
  }

  /** Once every due id is unlocked, the check changes nothing. */
  lemma {:induction false} CheckWhenAllDue(ctx: Context, hour: int, u: seq<string>, n: nat)
    requires n <= |ACHIEVEMENTS|
    requires forall k :: 0 <= k < |ACHIEVEMENTS| && Due(k, ctx, hour) ==> ACHIEVEMENTS[k].id in u
    ensures CheckedPrefix(ctx, hour, u, n) == u
  {
    if n > 0 {
      CheckWhenAllDue(ctx, hour, u, n - 1);
    }
  }

  /** Checking twice with the same context unlocks nothing the second time. */
  lemma CheckTwiceUnlocksOnce(ctx: Context, hour: int, u: seq<string>)
    ensures var once := CheckedUnlocks(ctx, hour, u);
            CheckedUnlocks(ctx, hour, once) == once
  {
    CheckedUnlocksSpec(ctx, hour, u);
    CheckWhenAllDue(ctx, hour, CheckedUnlocks(ctx, hour, u), |ACHIEVEMENTS|);
  }

  // ---------------------------------------------------------------------------
  // checkAndUnlock as written

  /** What checkAndUnlock does as written: every `unlock` call reads the list
      captured at render time, so each returns true for its own id but each
      `setUnlocked` replaces the list with the snapshot plus that id alone. */
  datatype Snapshot = Snapshot(newly: seq<string>, unlocked: seq<string>)

  function SnapshotStep(s: Snapshot, snapshot: seq<string>, k: nat, ctx: Context, hour: int): Snapshot
    requires k < |ACHIEVEMENTS|
  {
    var id := ACHIEVEMENTS[k].id;
    if Due(k, ctx, hour) && id !in snapshot then Snapshot(s.newly + [id], snapshot + [id]) else s
  }

  function SnapshotPrefix(ctx: Context, hour: int, snapshot: seq<string>, n: nat): (r: Snapshot)
    requires n <= |ACHIEVEMENTS|
    ensures r.unlocked == snapshot || (|r.newly| > 0 && r.unlocked == snapshot + [r.newly[|r.newly| - 1]])
  {
    if n == 0 then Snapshot([], snapshot)
    else SnapshotStep(SnapshotPrefix(ctx, hour, snapshot, n - 1), snapshot, n - 1, ctx, hour)
  }

  /** checkAndUnlock as written: the ids reported and the list left behind. */
  function CheckAndUnlockAsWritten(ctx: Context, hour: int, snapshot: seq<string>): (r: Snapshot)
    ensures r.unlocked == snapshot || (|r.newly| > 0 && r.unlocked == snapshot + [r.newly[|r.newly| - 1]])
  {
    SnapshotPrefix(ctx, hour, snapshot, |ACHIEVEMENTS|)
  }

  /** The first tap of a player on a seven-day streak, at noon: both
      achievements are reported, but only the second stays unlocked. Building
      each unlock on the previous one keeps both. */
  lemma SnapshotLosesUnlocks(ctx: Context)
    requires ctx == Context(1, 0, 7, 0, 0, None, 0)
    ensures CheckAndUnlockAsWritten(ctx, 12, []).newly == ["first_tap", "week_streak"]
    ensures CheckAndUnlockAsWritten(ctx, 12, []).unlocked == ["week_streak"]
    ensures CheckedUnlocks(ctx, 12, []) == ["first_tap", "week_streak"]
  {
    TableIdsDistinct();
    assert ACHIEVEMENTS[0].id == "first_tap" && ACHIEVEMENTS[2].id == "week_streak";
    var u1 := Step([], 0, ctx, 12);
    assert u1 == ["first_tap"];
    var u3 := Step(u1, 2, ctx, 12);
    assert u3 == ["first_tap", "week_streak"];
  }

  // ---------------------------------------------------------------------------
  // The hook

  /** The achievements hook: unlocked ids, the achievement to announce, the
      loaded flag and the host storage. */
  class AchievementLog {
    var unlocked: seq<string>
    var justUnlocked: Option<Achievement>
    var isLoaded: bool
    var store: map<string, string>

    constructor (initial: map<string, string>)
      ensures unlocked == [] && justUnlocked.None? && !isLoaded && store == initial
    {
      unlocked := [];
      justUnlocked := None;
      isLoaded := false;
      store := initial;
    }

    /** The load effect: a stored, non-empty value replaces the list with its
        validated ids; a read that throws (`readFails`) keeps it. */
    method Load(parse: string -> Option<JsValue>, readFails: bool)
      modifies this
      ensures isLoaded && store == old(store) && justUnlocked == old(justUnlocked)
      ensures !readFails && STORAGE_KEY in store && store[STORAGE_KEY] != "" ==>
        unlocked == ValidateAchievements(SafeJsonParse(Str(store[STORAGE_KEY]), Arr([]), parse))
      ensures !(!readFails && STORAGE_KEY in store && store[STORAGE_KEY] != "") ==> unlocked == old(unlocked)
    {
      if !readFails && STORAGE_KEY in store && store[STORAGE_KEY] != "" {
        unlocked := ValidateAchievements(SafeJsonParse(Str(store[STORAGE_KEY]), Arr([]), parse));
      }
      isLoaded := true;
    }

    /** unlock: appends a new, known id, announces it and writes the list. */
    method Unlock(id: string, stringify: seq<string> -> string) returns (ok: bool)
      modifies this
      ensures ok <==> id !in old(unlocked) && Find(id).Some?
      ensures unlocked == UnlockList(old(unlocked), id)
      ensures ok ==> justUnlocked == Find(id) && store == old(store)[STORAGE_KEY := stringify(unlocked)]
      ensures !ok ==> justUnlocked == old(justUnlocked) && store == old(store)
      ensures isLoaded == old(isLoaded)
    {
      if id in unlocked {
        return false;
      }
      var achievement := Find(id);
      if achievement.None? {
        return false;
      }
      unlocked := unlocked + [id];
      justUnlocked := achievement;
      store := store[STORAGE_KEY := stringify(unlocked)];
      ok := true;
    }

    /** One guarded unlock of checkAndUnlock. */
    method CheckOne(k: nat, ctx: Context, hour: int, stringify: seq<string> -> string, newly: seq<string>) returns (newly': seq<string>)
      requires k < |ACHIEVEMENTS|
      modifies this
      ensures unlocked == Step(old(unlocked), k, ctx, hour)
      ensures (unlocked == old(unlocked) && newly' == newly && justUnlocked == old(justUnlocked) && store == old(store)) ||
              (unlocked == old(unlocked) + [ACHIEVEMENTS[k].id] && newly' == newly + [ACHIEVEMENTS[k].id] &&
               justUnlocked == Some(ACHIEVEMENTS[k]) && store == old(store)[STORAGE_KEY := stringify(unlocked)])
      ensures isLoaded == old(isLoaded)
    {
      newly' := newly;
      var id := ACHIEVEMENTS[k].id;
      if Due(k, ctx, hour) && id !in unlocked {
        FindTableId(k);
        var ok := Unlock(id, stringify);
        newly' := newly + [id];
      }
    }

    /** checkAndUnlock, each unlock building on the one before: the eight
        guarded unlocks run in table order; the list becomes `CheckedUnlocks`,
        and the ids returned are those it gained. */
    method CheckAndUnlock(ctx: Context, hour: int, stringify: seq<string> -> string) returns (newly: seq<string>)
      modifies this
      ensures unlocked == CheckedUnlocks(ctx, hour, old(unlocked))
      ensures unlocked == old(unlocked) + newly
      ensures newly == [] ==> justUnlocked == old(justUnlocked) && store == old(store)
      ensures newly != [] ==> justUnlocked.Some? && justUnlocked.value.id == newly[|newly| - 1] && store == old(store)[STORAGE_KEY := stringify(unlocked)]
      ensures isLoaded == old(isLoaded)
    {
      newly := [];
      var k := 0;
      while k < |ACHIEVEMENTS|
        invariant 0 <= k <= |ACHIEVEMENTS|
        invariant unlocked == CheckedPrefix(ctx, hour, old(unlocked), k)
        invariant unlocked == old(unlocked) + newly
        invariant newly == [] ==> justUnlocked == old(justUnlocked) && store == old(store)
        invariant newly != [] ==> justUnlocked.Some? && justUnlocked.value.id == newly[|newly| - 1] && store == old(store)[STORAGE_KEY := stringify(unlocked)]
        invariant isLoaded == old(isLoaded)
      {
        newly := CheckOne(k, ctx, hour, stringify, newly);
        k := k + 1;
      }
    }

    /** hasAchievement */
    function HasAchievement(id: string): (r: bool)
      reads this
      ensures r <==> id in unlocked
    {
      id in unlocked
    }

    /** dismissNotification */
    method DismissNotification()
      modifies this
      ensures justUnlocked.None?
      ensures unlocked == old(unlocked) && store == old(store) && isLoaded == old(isLoaded)
    {
      justUnlocked := None;
    }

    function TotalUnlocked(): (n: nat)
      reads this
      ensures n == |unlocked|
    {
      |unlocked|
    }
  }

  /** totalAchievements */
  function TotalAchievements(): (n: nat)
    ensures n == 8
  {
    TableIdsDistinct();
    |ACHIEVEMENTS|
  }
}
