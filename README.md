# Krevetka: the reward and progression engine

Krevetka ("the shrimp of fate") is a VK / Telegram mini app. The player picks
a tone, angry or soft, and taps a shrimp. The tap draws a card, and the card's
diagnosis is revealed. Non-admins get three taps a day. Around this loop sit:

- a level/XP ladder;
- a day streak;
- a collection of revealed diagnoses;
- eight achievements;
- notification and welcome-back flags;
- an analytics roll-up.

Each of these keeps one slice of state in the host's key/value storage.

This project models that engine in Dafny and proves what the code promises:

- the anti-repeat card and video selection;
- the validators that turn untrusted stored values into bounded shapes;
- the level, streak, collection, achievement and notification state machines;
- the tap budget of the screen machine;
- the small pure helpers (deck filter, platform detection, share links, the
  map-backed storage adapters, the welcome-back and remaining-taps texts).

Modelling conventions:

- **State.** Each React hook and the `App` component is a `class`. Its state
  variables are fields, and its storage keys are a `store: map<string, string>`
  field. Each handler is a method whose `ensures` give the whole new state in
  terms of specification functions. Lemmas about those functions carry the
  properties.
- **The card selector** is a class with the two history lists as fields,
  because the module mutates them in place.
- **Pure code** (validators, decks, detection, share links, tier tables) is
  functions and lemmas.
- **Parameters for what the model cannot compute:**
  - the clocks: `today`, `yesterday`, `hour`, `now`;
  - the crypto words behind `secureRandom`;
  - the card index picked by `Math.random`;
  - the host's replies;
  - `JSON.parse` (`string -> Option<JsValue>`, where None means it throws)
    and `JSON.stringify`.
- **JavaScript built-ins** used by the code are defined in `JsBuiltins`:
  truthiness, `parseInt`, `String(n)`, `slice(-n)`, `includes`. The
  `URLSearchParams.get` behaviour the code relies on is in `UrlQuery`.
- **Numbers** are unbounded integers.
- **Storage.** src/hooks/useAchievements.js and src/App.jsx call the VK
  bridge's storage directly, not through the platform adapter. Their `store`
  field stands for that host storage.

Two places where the code behaves differently from what a reader might expect:

- **selectCard's rarity fallback.** When no available card has the rolled
  rarity, `selectCard` widens to the history-filtered pool, not to the
  same-rarity cards that are in the history (src/utils/cardSelector.js:80-82).
- **The tap screen's card.** The tap screen picks its card with
  `Math.random` (src/App.jsx:146), not with `selectCard`. `App.AppState.HandleTap`
  takes the index as `pick`.

## Model

| member | source | states |
|---|---|---|
| JsBuiltins.ParseInt | src/App.jsx:78 | `parseInt`: NaN for blank text; a leading decimal digit (not a `0x` prefix) gives a non-negative number; a negative result needs a leading '-' |
| JsBuiltins.ParseIntOrZero | src/hooks/useNotifications.js:36 | parseInt-or-zero: the parsed number when there is one, else 0; a non-zero result is always the parsed one |
| JsBuiltins.ParseIntOfIntToString | src/utils/validation.js:50 | `parseInt(String(n))` is `n` for every integer, so a count written with `String` reads back unchanged |
| JsBuiltins.TakeLast | src/utils/validation.js:30 | `slice(-n)` keeps the last `min(n, length)` elements in their order |
| JsBuiltins.Clamp | src/utils/validation.js:53 | `Math.min(Math.max(lo, x), hi)` lies in `[lo, hi]` and is `x` when `x` already does |
| JsBuiltins.RoundPercent | src/hooks/useLevel.js:57 | `Math.round(a / b * 100)` in exact arithmetic: the nearest integer, halves rounded up |
| JsBuiltins.RoundPercentOfShare | src/hooks/useLevel.js:57 | a share of at most the whole rounds to a percentage in [0, 100] |
| JsBuiltins.Utf16Length | src/utils/validation.js:29 | `s.length` counts UTF-16 code units: at least one and at most two per character |
| UrlQuery.Get | src/platform/browser.js:20-21 | `URLSearchParams.get`: null iff no decoded pair has the name; otherwise the value of the first pair with that name |
| UrlQuery.GetOfSinglePair | src/platform/browser.js:20-21 | a query `?name=value` yields the form-decoded value ('+' a space, `%XX` escapes of ASCII decoded) for `name` and nothing for any other name |
| UrlQuery.FormDecode | src/platform/browser.js:20-21 | text with no '+' and no '%' decodes to itself |
| UrlQuery.EscapedTrueDecodes | src/platform/browser.js:20-21 | `tru%65` decodes to 'true' |
| UrlQuery.EscapedAdminDecodes | src/platform/vk.js:45-47 | `%61dmin` decodes to 'admin' |
| Validation.SafeJsonParse | src/utils/validation.js:9-16 | an absent, empty or non-string input gives the fallback; otherwise the parsed value, or the fallback when parsing throws |
| Validation.ValidItems | src/utils/validation.js:23-29 | an entry is kept iff it is valid (numeric id, mode angry/soft, string diagnosis under 500 UTF-16 units) and stored; never more entries than stored |
| Validation.ValidItemsCounts | src/utils/validation.js:23-29 | each valid entry is kept as many times as it is stored, and no invalid one |
| Validation.ValidItemsKeepsOrder | src/utils/validation.js:23-29 | the kept entries are a subsequence of the input, in its order |
| Validation.ValidateCollection | src/utils/validation.js:21-31 | a non-array gives []; otherwise at most 100 entries, all valid (diagnosis length in UTF-16 units), which are the last 100 valid entries in order |
| Validation.ValidateCollectionIdempotent | src/utils/validation.js:21-31 | validating a validated collection changes nothing |
| Validation.ToEntry | src/utils/validation.js:23-29 | a valid item becomes an entry with its id, its mode and its diagnosis (under 500 characters) |
| Validation.ValidateLevelData | src/utils/validation.js:36-44 | a non-object gives `{xp: 0, lastDailyBonus: null}`; otherwise 0 ≤ xp ≤ 100000, an in-range numeric xp is kept, and lastDailyBonus is kept exactly when it is a string |
| Validation.ValidateStreakData | src/utils/validation.js:49-56 | the streak lies in [0, 365] and is 0 when missing or unparsable; the date is kept exactly when it is non-empty |
| Validation.StreakDataRoundTrip | src/utils/validation.js:49-56 | a streak in [0, 365] written as `String(n)` with a date validates back to that streak and date |
| Validation.Counters | src/utils/validation.js:66 | the counter map holds exactly the numeric fields of an object, each with its value |
| Validation.ValidateAnalytics | src/utils/validation.js:61-74 | a non-object gives `{events: {}, sessions: 0}`; sessions never exceed 10000, are 0 when not numeric and are kept when numeric and in range; events are the stored counters, `{}` for a non-object, absent for null; rarities, modes and decks are the stored counters when truthy, else their defaults; the visit times are kept when non-empty strings |
| Validation.ShortIds | src/utils/validation.js:81 | an id is kept iff it is a stored string shorter than 50 UTF-16 units |
| Validation.ShortIdsCounts | src/utils/validation.js:81 | each short string id is kept as many times as it is stored, and nothing else |
| Validation.ShortIdsKeepsOrder | src/utils/validation.js:81 | the kept ids are a subsequence of the stored list, in its order |
| Validation.ValidateAchievements | src/utils/validation.js:79-82 | a non-array gives []; otherwise an id is kept iff it is a string shorter than 50 UTF-16 units |
| Validation.ShortIdsOfShort | src/utils/validation.js:81 | a list of short ids passes through unchanged |
| Validation.ValidateAchievementsIdempotent | src/utils/validation.js:79-82 | validating a validated achievement list changes nothing |
| CardSelector.SecureRandom | src/utils/cardSelector.js:22-26 | `word % max` is below `max` |
| CardSelector.Shuffle | src/utils/cardSelector.js:40-47 | the Fisher–Yates loop returns a permutation of its input (same length, same multiset) |
| CardSelector.Available | src/utils/cardSelector.js:66-71 | every card not in the history and no other, or every card when all are in it; never empty for a non-empty deck |
| CardSelector.FilterFresh | src/utils/cardSelector.js:66 | keeps exactly the cards whose id is not in the history |
| CardSelector.Pool | src/utils/cardSelector.js:77-82 | every available card of the rolled rarity and no other, or all available cards when none has it; never empty when cards are available |
| CardSelector.FilterRarity | src/utils/cardSelector.js:77 | keeps exactly the cards of the rolled rarity |
| CardSelector.PushBounded | src/utils/cardSelector.js:89-92 | push then shift: the history ends with the new id, keeps the newest entries in order and never exceeds its cap |
| CardSelector.FreshCardExists | src/utils/cardSelector.js:66-71 | more distinct ids than history entries means some card is fresh |
| CardSelector.FreshIndices | src/utils/cardSelector.js:105-107 | exactly the indices below `n` that are not in the video history |
| CardSelector.AllIndices | src/utils/cardSelector.js:112 | the indices 0..n-1 in order |
| CardSelector.Selector.constructor | src/utils/cardSelector.js:9-10 | both histories start empty |
| CardSelector.Selector.SelectCard | src/utils/cardSelector.js:62-95 | an empty deck gives null and no change; otherwise a card of the pool, and the card history becomes the bounded push of its id; the video history is untouched |
| CardSelector.Selector.SelectVideo | src/utils/cardSelector.js:100-123 | none for an empty list; the only video, with no history change, for one; otherwise a fresh index pushed onto the bounded history, or, when every index was recent, a history reset to just that index |
| CardSelector.Selector.ResetCardHistory | src/utils/cardSelector.js:128-130 | empties the card history only |
| CardSelector.Selector.ResetVideoHistory | src/utils/cardSelector.js:135-137 | empties the video history only |
| CardSelector.Selector.ResetAllHistory | src/utils/cardSelector.js:142-145 | empties both histories |
| CardSelector.Selector.GetCardHistory | src/utils/cardSelector.js:148 | returns the card history |
| CardSelector.Selector.GetVideoHistory | src/utils/cardSelector.js:149 | returns the video history |
| CardSelector.DrawnCardProperties | src/utils/cardSelector.js:62-95 | a drawn card is in the deck; it is fresh whenever any card is; it has the rolled rarity whenever an available card does |
| CardSelector.NoRepeatWithinHistory | src/utils/cardSelector.js:62-95 | with more than 10 distinct ids in the deck, no card repeats within the last 10 draws |
| Level.LevelsOrdered | src/hooks/useLevel.js:10-21 | ten tiers numbered 1..10, starting at 0 XP, with strictly increasing thresholds |
| Level.TierIndex | src/hooks/useLevel.js:34-44 | the index of the last tier whose threshold the XP reaches (tier 0 below every threshold) |
| Level.TierIndexUnique | src/hooks/useLevel.js:34-44 | that index is the only one with the property |
| Level.TierIndexMonotone | src/hooks/useLevel.js:34-44 | more XP never gives a lower tier |
| Level.TierReached | src/hooks/useLevel.js:34-44 | for XP ≥ 0 the tier's threshold is reached |
| Level.GetLevelByXP | src/hooks/useLevel.js:34-44 | the loop with its early break returns exactly `LEVELS[TierIndex(xp)]` |
| Level.GetProgress | src/hooks/useLevel.js:46-65 | the top tier gives no next tier, 100 % and 0 to go; below it, the next tier, `xpToNext = next.xpRequired - xp > 0` and a percentage in [0, 100] |
| Level.ProgressWithinTier | src/hooks/useLevel.js:55-57 | below the top tier the percentage is exactly the rounded share of the tier's span covered, 0 at the tier's threshold |
| Level.LevelDataRoundTrip | src/hooks/useLevel.js:78-83 | a saved `{xp, lastDailyBonus}` with xp in range loads back unchanged |
| Level.NewXP | src/hooks/useLevel.js:99 | `Math.min(prev + amount, 100000)` |
| Level.GainNeverLowersTier | src/hooks/useLevel.js:98-102 | gaining XP never lowers the tier |
| Level.DailyBonusRecord | src/hooks/useLevel.js:117-126 | the corrected daily-bonus record: capped new XP and today's date |
| Level.DailyBonusSurvivesReload | src/hooks/useLevel.js:117-126 | the corrected record reloads as written, carrying today, so the bonus is not granted twice on one day |
| Level.DailyBonusFinalRecordAsWritten | src/hooks/useLevel.js:90-122 | as written, the record left last is `addXP`'s deferred save: the capped XP with the old bonus date |
| Level.DailyBonusGrantedAgainAsWritten | src/hooks/useLevel.js:90-122 | as written, the reloaded record does not carry today, so a same-day reload grants the bonus again |
| Level.LevelTracker.constructor | src/hooks/useLevel.js:68-71 | XP 0 with its progress, no level-up, no bonus date |
| Level.LevelTracker.Load | src/hooks/useLevel.js:74-88 | a stored document sets xp, progress and bonus date from its validated form; nothing stored changes nothing |
| Level.LevelTracker.AddXP | src/hooks/useLevel.js:96-115 | xp becomes the capped sum; a level-up carrying the new tier is raised iff the tier rose; the record is saved |
| Level.LevelTracker.CheckDailyBonus | src/hooks/useLevel.js:117-126 | granted iff the last bonus was not today; then +30 XP (capped), a level-up iff the tier rose, today recorded and the corrected record saved; otherwise nothing changes |
| Level.LevelTracker.DismissLevelUp | src/hooks/useLevel.js:128-133 | clears the level-up signal only |
| Streak.Stored | src/hooks/useStreak.js:15-24 | the validated stored streak lies in [0, 365] |
| Streak.SaveStreak | src/hooks/useStreak.js:47-54 | writes `String(count)` and the date under their two keys and nothing else |
| Streak.LoadEffect | src/hooks/useStreak.js:13-42 | a read failure gives 1; last visit today keeps the streak; yesterday adds one and saves; anything else restarts at 1 and saves |
| Streak.SavedReadsBack | src/hooks/useStreak.js:47-54 | what a load saves reads back as that count dated today |
| Streak.SameDayReload | src/hooks/useStreak.js:26-27 | a second load on the same day keeps the streak and writes nothing |
| Streak.NextDayAddsOne | src/hooks/useStreak.js:28-31 | a load on the following day adds exactly one and persists it |
| Streak.SkippedDayRestarts | src/hooks/useStreak.js:32-34 | a load after a skipped day restarts at 1 |
| Streak.StreakPastCapReadsBackClamped | src/hooks/useStreak.js:19-31 | continuing a stored 365 gives 366 in memory and is read back as 365 |
| Streak.StreakTracker.Load | src/hooks/useStreak.js:12-45 | the streak and storage become the load effect's, and the hook is loaded |
| Streak.StreakBonus | src/hooks/useStreak.js:56-62 | the tier by thresholds 30/14/7/3, each caption iff its range, 'Старт' below 3 |
| Collection.HasCollected | src/hooks/useCollection.js:71-73 | true iff the (id, mode) pair is among the collected pairs |
| Collection.Add | src/hooks/useCollection.js:30-58 | no diagnosis or an existing (id, mode) pair: false and no change; otherwise true and exactly that entry appended |
| Collection.CollectedAfterAdd | src/hooks/useCollection.js:71-73 | after an add with a diagnosis, `hasCollected` holds for the pair |
| Collection.AddTwice | src/hooks/useCollection.js:34-57 | adding the same pair twice gives true then false and one more entry |
| Collection.AddKeepsPairsDistinct | src/hooks/useCollection.js:34-38 | adding never creates a repeated (id, mode) pair |
| Collection.CountMode | src/hooks/useCollection.js:63-64 | the number of entries in a mode is at most the total |
| Collection.PairsBound | src/hooks/useCollection.js:62 | distinct pairs are at most the entries |
| Collection.PairsOfDistinct | src/hooks/useCollection.js:62 | with no repeats, distinct pairs equal the entries |
| Collection.ModesPartition | src/hooks/useCollection.js:63-64 | angry + soft equals the total |
| Collection.CardIdsBound | src/hooks/useCollection.js:62-65 | distinct card ids are at most the distinct pairs |
| Collection.Percent | src/hooks/useCollection.js:65 | the rounded percentage for a positive total, none otherwise |
| Collection.GetStats | src/hooks/useCollection.js:60-67 | total, unique ≤ total, angry + soft = total, the percentage of distinct cards, maxPossible = 2 × totalCards |
| Collection.UniqueWhenDistinct | src/hooks/useCollection.js:62 | in a log built by adds, unique equals total |
| Collection.PercentBounded | src/hooks/useCollection.js:65 | the percentage lies in [0, 100] when the collected cards are among the deck |
| Collection.PercentOfShare | src/hooks/useCollection.js:65 | a share n ≤ total rounds to a percentage in [0, 100] |
| Collection.Recent | src/hooks/useCollection.js:69 | at most ten entries, newest first |
| Collection.RecentAfterAdd | src/hooks/useCollection.js:40-69 | after an add the new entry heads `recent` |
| Collection.CollectionLog.Load | src/hooks/useCollection.js:12-28 | a stored, non-empty document is replaced by its validated entries; otherwise the list is kept; the hook is loaded |
| Collection.CollectionLog.AddToCollection | src/hooks/useCollection.js:30-58 | the list and result are `Add`'s; when added, the last 100 entries are saved |
| Achievements.Find | src/hooks/useAchievements.js:110 | finds the table entry with the id, none iff no entry has it |
| Achievements.TableIdsDistinct | src/hooks/useAchievements.js:9-66 | eight achievements with distinct ids |
| Achievements.UnlockList | src/hooks/useAchievements.js:107-125 | an unlocked or unknown id changes nothing; a new known id is appended |
| Achievements.UnlockIdempotent | src/hooks/useAchievements.js:107-125 | unlocking twice is unlocking once, and unlock never creates duplicates |
| Achievements.FindTableId | src/hooks/useAchievements.js:110 | each table id finds its own entry |
| Achievements.StepFacts | src/hooks/useAchievements.js:141-180 | one check appends the achievement's id iff its condition holds and it is not yet unlocked |
| Achievements.Due | src/hooks/useAchievements.js:142-180 | the eight conditions in table order; no condition holds past the eighth entry |
| Achievements.CheckedPrefixSpec | src/hooks/useAchievements.js:141-182 | after the first n checks an id is unlocked iff it was before or its condition holds; the old list is a prefix; no duplicates arise |
| Achievements.CheckedUnlocksSpec | src/hooks/useAchievements.js:128-183 | after all eight checks: unlocked iff before or due (first_tap at 1 tap, angry_streak_5 at ≥ 5, week_streak at ≥ 7, night_owl for hours 0–4, collectors at ≥ 70, legendary_find on legendary, rare_hunter at ≥ 5) |
| Achievements.CheckedPrefixAppendsNew | src/hooks/useAchievements.js:141-182 | the checks only append, and only ids not in the list before them |
| Achievements.GainedAreNew | src/hooks/useAchievements.js:141-182 | the returned ids were not unlocked before the call, even when the stored list has repeats |
| Achievements.CheckWhenAllDue | src/hooks/useAchievements.js:141-182 | once every due id is unlocked the check changes nothing |
| Achievements.CheckTwiceUnlocksOnce | src/hooks/useAchievements.js:128-183 | a second check with the same context unlocks nothing |
| Achievements.SnapshotPrefix | src/hooks/useAchievements.js:107-116 | as written, each unlock rebuilds from the render-time list, so at most the last new id survives |
| Achievements.CheckAndUnlockAsWritten | src/hooks/useAchievements.js:128-183 | as written, the final list is the snapshot plus at most the last new id |
| Achievements.SnapshotLosesUnlocks | src/hooks/useAchievements.js:107-154 | first tap on a 7-day streak: as written two ids are returned but only week_streak is kept; the threaded model keeps both |
| Achievements.AchievementLog.Load | src/hooks/useAchievements.js:77-92 | a stored, non-empty document becomes its validated id list; otherwise the list is kept; the hook is loaded |
| Achievements.AchievementLog.Unlock | src/hooks/useAchievements.js:107-125 | true iff the id is new and known; then it is appended, shown and saved; otherwise nothing changes |
| Achievements.AchievementLog.CheckOne | src/hooks/useAchievements.js:142-144 | one guarded unlock: the list becomes the step's, and a new id is recorded, shown and saved |
| Achievements.AchievementLog.CheckAndUnlock | src/hooks/useAchievements.js:128-183 | the list becomes `CheckedUnlocks` of the old list, the result is exactly the appended ids, and the last of them is shown and saved |
| Achievements.AchievementLog.HasAchievement | src/hooks/useAchievements.js:186-188 | true iff the id is unlocked |
| Achievements.AchievementLog.DismissNotification | src/hooks/useAchievements.js:191-196 | clears the shown achievement only |
| Achievements.AchievementLog.TotalUnlocked | src/hooks/useAchievements.js:215 | the number of unlocked ids |
| Achievements.TotalAchievements | src/hooks/useAchievements.js:216 | 8 |
| Notifications.HoursSince | src/hooks/useNotifications.js:38 | whole hours rounded down, and ≥ 24 iff at least 24 × 3600000 ms passed |
| Notifications.WelcomeBackOf | src/hooks/useNotifications.js:36-43 | shown iff the last visit is positive and 24 whole hours have passed; hoursAway is those hours |
| Notifications.ShouldAskPermission | src/hooks/useNotifications.js:96 | not asked and not allowed |
| Notifications.Flag | src/hooks/useNotifications.js:32-33 | a stored flag is set iff its key holds exactly 'true' |
| Notifications.NotificationState.Load | src/hooks/useNotifications.js:20-56 | flags true only for 'true', the prompt raised after a long absence, the visit time written; a failed read changes nothing |
| Notifications.NotificationState.RequestPermission | src/hooks/useNotifications.js:59-88 | once asked, returns the known answer without asking; an answer is stored under both keys; a request that throws, or a null or undefined reply whose `.result` throws, stores only "asked", keeps `isAllowed` and returns false |
| Notifications.NotificationState.DismissWelcomeBack | src/hooks/useNotifications.js:91-93 | hides the prompt only |
| Notifications.WelcomeBackAfterAbsence | src/hooks/useNotifications.js:36-49 | the visit time a load writes drives the next load: the prompt shows iff 24 hours passed |
| Notifications.AskedSurvivesReload | src/hooks/useNotifications.js:79-85 | after a refused or failed request the next load reads "asked", and nobody is asked again |
| Notifications.GrantedSurvivesReload | src/hooks/useNotifications.js:66-76 | after a granted request the next load reads both flags set, and nobody is asked again |
| App.TapsLeft | src/App.jsx:153 | `Math.max(0, 3 - taps)`: in [0, 3] for a non-negative count, 0 iff the limit is reached |
| App.TapAllowed | src/App.jsx:125 | a tap draws iff the player is an admin or the shown taps-left count is positive |
| App.Draws | src/App.jsx:121-153 | the cards drawn in a run of taps are at most the taps |
| App.DrawsAreBudgeted | src/App.jsx:125-153 | a non-admin draws exactly min(taps, taps left) cards |
| App.AdminUnlimited | src/App.jsx:125 | an admin draws a card on every tap |
| App.StoredTapsAsWritten | src/App.jsx:77-83 | as written, the stored count is used only when dated today, and 0 otherwise |
| App.NegativeStoredCountAsWritten | src/App.jsx:77-80 | as written, a stored "-m" dated today gives 3 + m taps left and 3 + m draws |
| App.StoredTaps | src/App.jsx:77-80 | the restored count is never negative |
| App.StoredTapsBudgeted | src/App.jsx:77-153 | with the corrected read, a non-admin draws at most 3 cards a day whatever is stored |
| App.TapsSurviveReload | src/App.jsx:151-157 | the count a tap writes is restored on a reload the same day |
| App.AppState.constructor | src/App.jsx:46-54 | the choice screen, no mode or card, 0 taps and 3 left |
| App.AppState.LoadUser | src/App.jsx:61-67 | an admin id turns the limit off; every other field is unchanged |
| App.AppState.LoadTaps | src/App.jsx:69-85 | a count dated today is restored (never below 0) with its taps left; another day shows the full budget; mode, card, animation, diagnosis, admin flag and storage are unchanged |
| App.AppState.HandleModeSelect | src/App.jsx:111-118 | sets the mode and goes to the tap screen; every other field is unchanged |
| App.AppState.HandleTap | src/App.jsx:121-171 | ignored while animating (nothing changes); a non-admin at the limit goes to the limit screen and nothing else changes; otherwise a card, one more tap, the taps left recomputed, the diagnosis hidden and the count and date saved |
| App.AppState.AnimationDone | src/App.jsx:160-162 | ends the animation and shows the card screen; every other field is unchanged |
| App.AppState.RevealDiagnosis | src/App.jsx:164-165 | shows the diagnosis; every other field is unchanged |
| App.AppState.HandleAgain | src/App.jsx:184-191 | back to the tap screen with no card and the diagnosis hidden; mode, counts, animation, admin flag and storage unchanged |
| App.AppState.HandleChangeMode | src/App.jsx:194-199 | back to the choice screen with no card, no mode and the diagnosis hidden; counts, animation, admin flag and storage unchanged |
| Decks.FilterByThemes | src/data/decks.js:59 | keeps exactly the cards whose theme is in the deck's themes |
| Decks.GetCardsForDeck | src/data/decks.js:54-60 | an unknown deck or a deck without themes returns the input; otherwise the theme filter |
| Decks.FilterByThemesKeepsOrder | src/data/decks.js:59 | the filter is a subsequence of the input |
| Decks.GetCardsForDeckKeepsOrder | src/data/decks.js:54-60 | the deck's cards are an order-preserving subsequence of the input |
| Decks.FilterByThemesOfMatching | src/data/decks.js:59 | cards already on the deck's themes pass through unchanged |
| Decks.GetCardsForDeckIdempotent | src/data/decks.js:54-60 | filtering twice with the same deck is filtering once |
| Detect.DetectPlatform | src/platform/detect.js:16-40 | telegram iff initData, or a WebApp object with no VK markers; vk iff VK markers and no initData; browser otherwise |
| Detect.DetectPlatformIsFirstMatch | src/platform/detect.js:16-40 | the result is the first of the ordered tests that matches |
| BrowserPlatform.PrefixInjective | src/platform/browser.js:32-38 | distinct keys get distinct prefixed storage keys |
| BrowserPlatform.ReadAfterWrite | src/platform/browser.js:29-39 | a write reads back under its key and leaves every other key's value unchanged |
| BrowserPlatform.Browser.StorageGet | src/platform/browser.js:29-35 | one entry per requested key: the stored value under `krevetka_` + key, or '' |
| BrowserPlatform.Browser.StorageSet | src/platform/browser.js:37-39 | writes the value under `krevetka_` + key and nothing else |
| BrowserPlatform.IsAdmin | src/platform/browser.js:19-22 | true iff the query's form-decoded admin parameter is 'true' |
| BrowserPlatform.AdminFlagInQuery | src/platform/browser.js:19-22 | for `?admin=v`, admin iff v decodes to 'true'; `?admin=tru%65` is admin |
| BrowserPlatform.GetUserId | src/platform/browser.js:24-26 | always null |
| BrowserPlatform.ShareStory | src/platform/browser.js:56-58 | always false |
| BrowserPlatform.RequestNotifications | src/platform/browser.js:60-62 | always false |
| BrowserPlatform.Purchase | src/platform/browser.js:65-67 | always `{success: false, reason: 'not_supported'}` |
| VkPlatform.BuildUrl | src/platform/vk.js:16-22 | starts with the app URL, and is exactly the app URL iff there is no card id |
| VkPlatform.CardIdOfBuildUrl | src/platform/vk.js:16-22 | the card id can be read back from a built link |
| VkPlatform.IsAdmin | src/platform/vk.js:37-51 | admin iff the launch params or, after them, the form-decoded URL query give an admin/editor role or an admin user id |
| VkPlatform.AdminByQueryUserId | src/platform/vk.js:45-49 | for `?vk_user_id=v` without launch params, admin iff v decodes to an admin id |
| VkPlatform.AdminByQueryRole | src/platform/vk.js:45-47 | for `?vk_viewer_group_role=r` without launch params, admin iff r decodes to admin or editor |
| VkPlatform.EscapedRoleIsAdmin | src/platform/vk.js:45-47 | `?vk_viewer_group_role=%61dmin` makes the viewer an admin |
| VkPlatform.GetUserId | src/platform/vk.js:53-61 | the launch user id when set and non-zero, else null; without launch params the query's non-empty, form-decoded vk_user_id |
| VkPlatform.FoldLastWins | src/platform/vk.js:66-69 | a key is in the folded map iff some entry has it, with the last such entry's value |
| VkPlatform.StorageGet | src/platform/vk.js:64-70 | the reduce loop computes the fold |
| VkPlatform.StoryBlob | src/platform/vk.js:116-118 | a data URI is kept; anything else gets the PNG prefix |
| VkPlatform.StoryBlobIdempotent | src/platform/vk.js:116-118 | prefixing twice is prefixing once |
| VkPlatform.ShareStory | src/platform/vk.js:110-151 | the image story is tried first when there is an image, then the link-only story; shared iff one was accepted |
| VkPlatform.RequestNotifications | src/platform/vk.js:154-161 | true iff the host's reply has `result === true` |
| VkPlatform.Purchase | src/platform/vk.js:164-166 | always `{success: false, reason: 'not_supported'}` |
| Social.ShareUrl | src/utils/social.js:12 | the app URL, with `#card=…&mode=…` exactly when a card id is given |
| Social.ShareUrlIsHostLink | src/utils/social.js:12 | on VK the share URL is the host adapter's link for the same card and mode, for every mode |
| Social.Bump | src/utils/social.js:108-112 | the counter is created at 0 and incremented by one; the others are unchanged |
| Social.BumpExisting | src/utils/social.js:94-106 | only an existing counter is incremented; unknown keys change nothing |
| Social.TrackEventRecord | src/utils/social.js:90-118 | the event is counted; rarity and mode only for known keys; the deck counter is created and bumped; firstVisit set only when absent; lastVisit set to now |
| Social.TrackEventCountsOnce | src/utils/social.js:90-92 | the event count goes up by exactly one and no other event count moves |
| Social.TrackSessionRecord | src/utils/social.js:139-142 | sessions go up by one; the session start and platform are recorded; nothing else changes |
| Social.LoadAnalytics | src/utils/social.js:82-88 | nothing stored gives `{events: {}, sessions: 0}`; a throwing parse gives the validated empty object; sessions ≤ 10000 |
| Social.CountersJs | src/utils/social.js:120 | a counter map serialises to an object that validates back to it |
| Social.ToJsFields | src/utils/social.js:120 | the saved object carries each field of the roll-up |
| Social.ValidateToJs | src/utils/validation.js:61-74 | a saved roll-up validates back to itself, less the session start and platform |
| Social.LoadAfterSave | src/utils/social.js:82-120 | what is saved loads back |
| Social.AnalyticsLog.TrackEvent | src/utils/social.js:76-124 | the stored roll-up becomes the tracked record of the loaded one; a storage read that throws writes nothing |
| Social.AnalyticsLog.TrackSessionStart | src/utils/social.js:126-146 | the stored roll-up becomes the session record of the loaded one; a storage read that throws writes nothing |
| Social.AnalyticsLog.GetAnalytics | src/utils/social.js:148-157 | the default when nothing is stored or the storage read throws; sessions ≤ 10000 |
| Social.TrackEventThenRead | src/utils/social.js:76-124 | tracking an event and reading back shows it counted once more |
| WelcomeBack.Days | src/components/ui/WelcomeBackModal.jsx:5 | `Math.floor(hoursAway / 24)` |
| WelcomeBack.Message | src/components/ui/WelcomeBackModal.jsx:7-12 | the week, three-day, one-day or greeting message, each iff its range of days |
| WelcomeBack.Emoji | src/components/ui/WelcomeBackModal.jsx:14-18 | the week, three-day or default emoji, each iff its range of days |
| WelcomeBack.MessageByHours | src/components/ui/WelcomeBackModal.jsx:5-12 | the message tiers in hours: ≥ 168, 72–167, 24–71, under 24 |
| WelcomeBack.DayWord | src/components/ui/WelcomeBackModal.jsx:27 | 'день' iff 1, 'дня' for 2–4, 'дней' for 5 and more |
| WelcomeBack.AwayText | src/components/ui/WelcomeBackModal.jsx:27 | days with their word when days > 0, else the hours |
| WelcomeBack.AwayTextNumber | src/components/ui/WelcomeBackModal.jsx:27 | the number shown is the days when at least 24 hours passed, else the hours |
| LimitProgress.Left | src/components/ui/LimitProgress.jsx:7 | `Math.max(0, max - current)`: never negative |
| LimitProgress.Dots | src/components/ui/LimitProgress.jsx:12-13 | exactly `max` dots, dot i used iff i < current |
| LimitProgress.MarkedDots | src/components/ui/LimitProgress.jsx:12-13 | exactly min(current, max) dots are used (none for a negative count) |
| LimitProgress.Label | src/components/ui/LimitProgress.jsx:16 | 'Лимит' iff nothing is left, otherwise the remaining count |
| LimitProgress.Render | src/components/ui/LimitProgress.jsx:4-19 | an admin sees only the infinity marker; others see the dots and label |
| LimitProgress.LimitShownWhenUsedUp | src/components/ui/LimitProgress.jsx:7-16 | the limit label shows iff current ≥ max |

## Left out

- **Randomness.**
  - `secureRandomFloat` and `rollRarity`'s float comparison are not modelled. The rolled rarity is an input of `CardSelector.Selector.SelectCard`, and the rarity probabilities are not modelled.
  - `crypto.getRandomValues` is a function from positions to words.
  - `Math.random` in the tap handler is the parameter `pick`.
- **Floating point.**
  - `Math.round` in `Level.GetProgress` and `Collection.Percent` is exact rational rounding, halves up. A float quotient that lands just beside a half is not reproduced.
- Collection.Percent: gives none for a non-positive card total, where the source gives NaN or Infinity.
- **Timers.**
  - The 4000 ms level-up and 3000 ms achievement auto-clear timers, and their cleanup effects, are not modelled. The dismiss methods clear the same fields.
  - The 700 ms and 800 ms tap timers are the methods `AnimationDone` and `RevealDiagnosis`, called by the environment.
- **Asynchronous storage.**
  - Storage writes are applied synchronously in program order.
  - A write that fails is ignored, as in the source, so it is not modelled.
- **Collection dates.** The `date` of a collection entry (`new Date().toISOString()`) is not modelled.
- **Host calls.**
  - Haptics, `init`, `close`, `shareLink` (clipboard and VKWebAppShare), `appUrl`, VK `storageSet`, and the bubbles and `handleShare` in App.jsx are host calls with no state of their own here.
  - `copyDiagnosis` and the share message text of `shareToFriend` are left out for the same reason.
  - `sendToServer`'s network transport is left out.
- **Platform name.** `platform.name` in `trackSessionStart` is taken as the detected platform.
- **Integers.** Numbers are integers. A stored non-integer XP or count, and JavaScript's 2^53 limit, are not modelled.
- **Out of scope.**
  - src/data/cards.js is not part of this model. A card is a record with id, theme, rarity and two texts.
  - Presentational components, canvas rendering, src/platform/telegram.js, src/platform/index.js and the build configuration are not part of this model.

Contracts that promise less than the source, member by member:

- Level.LevelTracker.CheckDailyBonus: saves the corrected record (capped XP, today) as the final state. As written, React runs `addXP`'s `setXP` updater at the next render, after the explicit save, and that save carries the old bonus date; the as-written record is `Level.DailyBonusFinalRecordAsWritten` (see Findings).
- UrlQuery.GetOfSinglePair: a `%XX` escape of a byte 0x80 or above (part of a UTF-8 sequence, or invalid) stays undecoded, where `URLSearchParams` decodes the UTF-8 sequence or gives U+FFFD. Every admin test compares with ASCII text, so `BrowserPlatform.IsAdmin` and `VkPlatform.IsAdmin` answer as the source does.
- VkPlatform.GetUserId: for the same reason, a query user id holding such an escape is returned with the escape in place.
- Validation.Counters: keeps only the numeric fields of a stored counter object. The source keeps `data.events`, and a truthy `rarities`, `modes` or `decks`, as stored, non-numeric fields and arrays included. `++` on such a field then follows JavaScript's coercion (a stored "1" becomes 2), which is not modelled.
- Validation.ValidateAnalytics: for the same reason, the roll-up holds integer counters only, and a truthy visit time that is not a string is dropped where the source keeps it.

## Findings

| source | as written | input that shows it | evidently intended | confidence | as-written member | corrected member |
|---|---|---|---|---|---|---|
| src/hooks/useLevel.js:90-122 | `checkDailyBonus` queues `setLastDailyBonus(today)` and then `addXP`, whose `setXP` updater runs at the next render, after the explicit `save(xp + 30, today)`; the updater's `save(newXP)` carries the old `lastDailyBonus`, so the record left in storage does not hold today | a first bonus (last bonus null), then a reload on the same day: the reloaded bonus date is still null and the bonus is granted again | the record left in storage holds the capped XP and today | not executed | Level.DailyBonusGrantedAgainAsWritten | Level.DailyBonusSurvivesReload |
| src/hooks/useAchievements.js:108,113 | `unlock` rebuilds the list from the `unlocked` captured at render, so several unlocks in one `checkAndUnlock` each overwrite the previous | first tap on a 7-day streak: returns first_tap and week_streak, but only week_streak stays unlocked | every unlock of the call is kept | not executed | Achievements.SnapshotLosesUnlocks | Achievements.AchievementLog.CheckAndUnlock |
| src/App.jsx:78-80 | the stored tap count is taken as parsed, so a negative count passes | "-5" stored for today: 8 taps left, 8 cards drawn | a count never below 0, at most 3 taps a day | not executed | App.NegativeStoredCountAsWritten | App.StoredTapsBudgeted |
