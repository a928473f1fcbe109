/** The diagnosis collection: every (card, mode) pair whose diagnosis was
    revealed is logged once, in order; the last 100 entries persist under
    `diagnosisCollection`. JSON.parse and JSON.stringify are the parameters
    `parse` and `stringify`. */
module Collection {
  import opened JsBuiltins
  import opened Cards
  import opened Validation

  const STORAGE_KEY: string := "diagnosisCollection"
  const RECENT_COUNT: nat := 10
  const DEFAULT_TOTAL_CARDS: int := 70

  /** hasCollected: some entry has this id and mode. */
  predicate HasCollected(collected: seq<Entry>, id: int, mode: Mode): (r: bool)
    ensures r <==> (id, mode) in Pairs(collected)
  {
    exists i :: 0 <= i < |collected| && collected[i].id == id && collected[i].mode == mode
  }

  /** No (id, mode) pair is logged twice. */
  predicate NoDuplicatePairs(collected: seq<Entry>) {
    forall i, j :: 0 <= i < j < |collected| ==>
      (collected[i].id, collected[i].mode) != (collected[j].id, collected[j].mode)
  }

  /** The outcome of addToCollection: whether it added, and the new list. */
  datatype AddOutcome = AddOutcome(added: bool, collected: seq<Entry>)

  /** addToCollection on the list: a missing diagnosis or a pair already logged
      adds nothing; otherwise the new entry goes at the end. */
  function Add(collected: seq<Entry>, card: Card, mode: Mode): (r: AddOutcome)
    ensures r.added <==> DiagnosisOf(card, mode) != "" && !HasCollected(collected, card.id, mode)
    ensures !r.added ==> r.collected == collected
    ensures r.added ==> r.collected == collected + [Entry(card.id, mode, DiagnosisOf(card, mode))]
  {
    var diagnosis := DiagnosisOf(card, mode);
    if diagnosis == "" then AddOutcome(false, collected)
    else if HasCollected(collected, card.id, mode) then AddOutcome(false, collected)
    else AddOutcome(true, collected + [Entry(card.id, mode, diagnosis)])
  }

  /** After an add with a diagnosis, the pair is collected, whether it was new or not. */
  lemma CollectedAfterAdd(collected: seq<Entry>, card: Card, mode: Mode)
    requires DiagnosisOf(card, mode) != ""
    ensures HasCollected(Add(collected, card, mode).collected, card.id, mode)
  {
    var r := Add(collected, card, mode);
    if r.added {
      assert r.collected[|collected|] == Entry(card.id, mode, DiagnosisOf(card, mode));
    }
  }

  /** Adding the same card in the same mode twice: the first add reports true,
      the second false, and the list grows by exactly one. */
  lemma AddTwice(collected: seq<Entry>, card: Card, mode: Mode)
    requires DiagnosisOf(card, mode) != "" && !HasCollected(collected, card.id, mode)
    ensures var first := Add(collected, card, mode);
            var second := Add(first.collected, card, mode);
            first.added && !second.added && |second.collected| == |collected| + 1
  {
    CollectedAfterAdd(collected, card, mode);
  }

  /** Adding keeps the log free of repeated pairs. */
  lemma AddKeepsPairsDistinct(collected: seq<Entry>, card: Card, mode: Mode)
    requires NoDuplicatePairs(collected)
    ensures NoDuplicatePairs(Add(collected, card, mode).collected)
  {
  }

  // ---------------------------------------------------------------------------
  // Derived views

  function Pairs(collected: seq<Entry>): set<(int, Mode)> {
    set e | e in collected :: (e.id, e.mode)
  }

  function CardIds(collected: seq<Entry>): set<int> {
    set e | e in collected :: e.id
  }

  function CountMode(collected: seq<Entry>, mode: Mode): (n: nat)
    ensures n <= |collected|
  {
    if collected == [] then 0
    else CountMode(collected[..|collected| - 1], mode) + (if collected[|collected| - 1].mode == mode then 1 else 0)
  }

  lemma {:induction false} PairsBound(collected: seq<Entry>)
    ensures |Pairs(collected)| <= |collected|
  {
    if collected != [] {
      var init := collected[..|collected| - 1];
      var last := collected[|collected| - 1];
      PairsBound(init);
      assert collected == init + [last];
      assert Pairs(collected) == Pairs(init) + {(last.id, last.mode)};
    }
  }

  lemma {:induction false} PairsOfDistinct(collected: seq<Entry>)
    requires NoDuplicatePairs(collected)
    ensures |Pairs(collected)| == |collected|
  {
    if collected != [] {
      var init := collected[..|collected| - 1];
      var last := collected[|collected| - 1];
      PairsOfDistinct(init);
      assert collected == init + [last];
      assert Pairs(collected) == Pairs(init) + {(last.id, last.mode)};
      assert (last.id, last.mode) !in Pairs(init);
    }
  }

  lemma {:induction false} ModesPartition(collected: seq<Entry>)
    ensures CountMode(collected, Angry) + CountMode(collected, Soft) == |collected|
  {
    if collected != [] {
      ModesPartition(collected[..|collected| - 1]);
    }
  }

  lemma {:induction false} CardIdsBound(collected: seq<Entry>)
    ensures |CardIds(collected)| <= |Pairs(collected)|
  {
    if collected != [] {
      var init := collected[..|collected| - 1];
      var last := collected[|collected| - 1];
      CardIdsBound(init);
      assert collected == init + [last];
      assert CardIds(collected) == CardIds(init) + {last.id};
      assert Pairs(collected) == Pairs(init) + {(last.id, last.mode)};
      if last.id !in CardIds(init) {
        assert (last.id, last.mode) !in Pairs(init);
        assert |CardIds(collected)| == |CardIds(init)| + 1;
        assert |Pairs(collected)| == |Pairs(init)| + 1;
      } else {
        assert CardIds(collected) == CardIds(init);
        if (last.id, last.mode) in Pairs(init) {
          assert Pairs(collected) == Pairs(init);
        } else {
          assert |Pairs(collected)| == |Pairs(init)| + 1;
        }
      }
    }
  }

  datatype Stats = Stats(total: nat, unique: nat, angry: nat, soft: nat, percent: Option<int>, maxPossible: int)

  /** `Math.round(n / total * 100)` in exact arithmetic; None when `total` is
      not a positive count (the source then yields Infinity or NaN). */
  function Percent(n: nat, total: int): (p: Option<int>)
    ensures p.Some? <==> total > 0
    ensures p.Some? ==> 2 * total * p.value <= 200 * n + total < 2 * total * (p.value + 1)
  {
    if total > 0 then Some(RoundPercent(n, total)) else None
  }

  /** stats */
  function GetStats(collected: seq<Entry>, totalCards: int): (s: Stats)
    ensures s.total == |collected|
    ensures s.unique == |Pairs(collected)| && s.unique <= s.total
    ensures s.angry == CountMode(collected, Angry) && s.soft == CountMode(collected, Soft)
    ensures s.angry + s.soft == s.total
    ensures s.percent == Percent(|CardIds(collected)|, totalCards)
    ensures s.maxPossible == 2 * totalCards
  {
    PairsBound(collected);
    ModesPartition(collected);
    Stats(|collected|, |Pairs(collected)|, CountMode(collected, Angry), CountMode(collected, Soft),
          Percent(|CardIds(collected)|, totalCards), totalCards * 2)
  }

  /** In a log kept by Add alone every entry is unique. */
  lemma UniqueWhenDistinct(collected: seq<Entry>, totalCards: int)
    requires NoDuplicatePairs(collected)
    ensures GetStats(collected, totalCards).unique == |collected|
  {
    PairsOfDistinct(collected);
  }

  /** The percentage counts cards, not pairs: at most 100 once every collected
      card is one of the `totalCards`. */
  lemma PercentBounded(collected: seq<Entry>, totalCards: int)
    requires totalCards > 0 && |CardIds(collected)| <= totalCards
    ensures 0 <= GetStats(collected, totalCards).percent.value <= 100
  {
    PercentOfShare(|CardIds(collected)|, totalCards);
  }

  lemma PercentOfShare(n: nat, total: int)
    requires 0 < total && n <= total
    ensures 0 <= Percent(n, total).value <= 100
  {
    RoundPercentOfShare(n, total);
  }

  function Reverse<T>(s: seq<T>): (r: seq<T>)
    ensures |r| == |s| && forall i :: 0 <= i < |s| ==> r[i] == s[|s| - 1 - i]
  {
    if s == [] then [] else Reverse(s[1..]) + [s[0]]
  }

  /** recent: the last ten entries, newest first. */
  function Recent(collected: seq<Entry>): (r: seq<Entry>)
    ensures |r| == if |collected| <= RECENT_COUNT then |collected| else RECENT_COUNT
    ensures forall i :: 0 <= i < |r| ==> r[i] == collected[|collected| - 1 - i]
  {
    Reverse(TakeLast(collected, RECENT_COUNT))
  }

  /** The newest entry leads `recent` after a successful add. */
  lemma RecentAfterAdd(collected: seq<Entry>, card: Card, mode: Mode)
    requires Add(collected, card, mode).added
    ensures Recent(Add(collected, card, mode).collected)[0] == Entry(card.id, mode, DiagnosisOf(card, mode))
  {
  }

  /** The collection hook: the list in memory, the loaded flag and the storage. */
  class CollectionLog {
    var collected: seq<Entry>
    var isLoaded: bool
    var store: map<string, string>

    constructor (initial: map<string, string>)
      ensures collected == [] && !isLoaded && store == initial
    {
      collected := [];
      isLoaded := false;
      store := initial;
    }

    /** The load effect: a stored, non-empty document is replaced by its
        validated entries; a read that throws (`readFails`) keeps the list. */
    method Load(parse: string -> Option<JsValue>, readFails: bool)
      modifies this
      ensures isLoaded && store == old(store)
      ensures !readFails && STORAGE_KEY in store && store[STORAGE_KEY] != "" ==>
        var items := ValidateCollection(SafeJsonParse(Str(store[STORAGE_KEY]), Arr([]), parse));
        |collected| == |items| <= MaxCollection &&
        forall i :: 0 <= i < |items| ==> collected[i] == ToEntry(items[i])
      ensures !(!readFails && STORAGE_KEY in store && store[STORAGE_KEY] != "") ==> collected == old(collected)
    {
      if !readFails && STORAGE_KEY in store && store[STORAGE_KEY] != "" {
        var items := ValidateCollection(SafeJsonParse(Str(store[STORAGE_KEY]), Arr([]), parse));
        collected := seq(|items|, i requires 0 <= i < |items| => ToEntry(items[i]));
      }
      isLoaded := true;
    }

    /** addToCollection: the list becomes `Add`'s; when it grew, its last 100
        entries are written. */
    method AddToCollection(card: Card, mode: Mode, stringify: seq<Entry> -> string) returns (added: bool)
      modifies this
      ensures AddOutcome(added, collected) == Add(old(collected), card, mode)
      ensures added ==> store == old(store)[STORAGE_KEY := stringify(TakeLast(collected, MaxCollection))]
      ensures !added ==> store == old(store)
      ensures isLoaded == old(isLoaded)
    {
      var diagnosis := DiagnosisOf(card, mode);
      if diagnosis == "" {
        return false;
      }
      if HasCollected(collected, card.id, mode) {
        return false;
      }
      collected := collected + [Entry(card.id, mode, diagnosis)];
      store := store[STORAGE_KEY := stringify(TakeLast(collected, MaxCollection))];
      added := true;
    }
  }
}
