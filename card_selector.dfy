/** The anti-repeat random selector. Two bounded first-in-first-out histories
    (card ids, capped at 10; video indices, capped at 3) steer each draw away
    from what was shown recently. The cryptographic random source is the
    parameter `words`: the 32-bit word drawn for each step. The rarity roll is
    the input tier `target`. */
module CardSelector {
  import opened JsBuiltins
  import opened Cards

  const MAX_CARD_HISTORY: nat := 10
  const MAX_VIDEO_HISTORY: nat := 3

  /** secureRandom(max): a random word reduced modulo `max`. */
  function SecureRandom(word: nat, max: nat): (r: nat)
    requires max > 0
    ensures r < max
  {
    word % max
  }

  /** shuffle: Fisher-Yates over a copy, from the last position down to 1,
      swapping each position with one drawn from those not after it. */
  method Shuffle<T>(input: seq<T>, words: nat -> nat) returns (result: seq<T>)
    ensures |result| == |input|
    ensures multiset(result) == multiset(input)
  {
    if |input| == 0 {
      return input;
    }
    var a := new T[|input|](k requires 0 <= k < |input| => input[k]);
    assert a[..] == input;
    var i := a.Length - 1;
    while i > 0
      invariant 0 <= i < a.Length
      invariant multiset(a[..]) == multiset(input)
      decreases i
    {
      var j := SecureRandom(words(i), i + 1);
      a[i], a[j] := a[j], a[i];
      i := i - 1;
    }
    result := a[..];
  }

  // ---------------------------------------------------------------------------
  // Specification of a card draw

  /** The cards whose id is not in the history; all cards when there are none. */
  function Available(cards: seq<Card>, history: seq<int>): (r: seq<Card>)
    ensures forall c :: c in r ==> c in cards
    ensures cards != [] ==> r != []
    ensures (exists c :: c in cards && c.id !in history) ==>
              forall c :: c in r ==> c.id !in history
    ensures forall c :: c in cards && c.id !in history ==> c in r
    ensures (forall c :: c in cards ==> c.id in history) ==> r == cards
  {
    var unseen := FilterFresh(cards, history);
    assert unseen != [] ==> unseen[0] in unseen;
    if unseen == [] then cards else unseen
  }

  function FilterFresh(cards: seq<Card>, history: seq<int>): (r: seq<Card>)
    ensures forall c :: c in r <==> c in cards && c.id !in history
  {
    if cards == [] then []
    else (if cards[0].id !in history then [cards[0]] else []) + FilterFresh(cards[1..], history)
  }

  /** The available cards of the rolled tier; all available cards when none has it. */
  function Pool(available: seq<Card>, target: Rarity): (r: seq<Card>)
    ensures forall c :: c in r ==> c in available
    ensures available != [] ==> r != []
    ensures (exists c :: c in available && c.rarity == target) ==>
              forall c :: c in r ==> c.rarity == target
    ensures forall c :: c in available && c.rarity == target ==> c in r
    ensures (forall c :: c in available ==> c.rarity != target) ==> r == available
  {
    var tier := FilterRarity(available, target);
    assert tier != [] ==> tier[0] in tier;
    if tier == [] then available else tier
  }

  function FilterRarity(cards: seq<Card>, target: Rarity): (r: seq<Card>)
    ensures forall c :: c in r <==> c in cards && c.rarity == target
  {
    if cards == [] then []
    else (if cards[0].rarity == target then [cards[0]] else []) + FilterRarity(cards[1..], target)
  }

  /** `h.push(x); if (h.length > cap) h.shift();` */
  function PushBounded(h: seq<int>, x: int, cap: nat): (r: seq<int>)
    requires cap > 0
    ensures |r| == if |h| + 1 <= cap then |h| + 1 else |h|
    ensures |h| <= cap ==> |r| <= cap
    ensures r != [] && r[|r| - 1] == x
    ensures r == (h + [x])[|h| + 1 - |r|..]
  {
    if |h| + 1 > cap then (h + [x])[1..] else h + [x]
  }

  /** The distinct card ids of a list. */
  function Ids(cards: seq<Card>): set<int> {
    set c | c in cards :: c.id
  }

  lemma {:induction false} ElementsBound(s: seq<int>)
    ensures |set x | x in s| <= |s|
  {
    if s != [] {
      ElementsBound(s[1..]);
      assert (set x | x in s) == {s[0]} + (set x | x in s[1..]);
    }
  }

  lemma {:induction false} SubsetBound<T>(a: set<T>, b: set<T>)
    requires a <= b
    ensures |a| <= |b|
    decreases |a|
  {
    if |a| > 0 {
      assert exists x :: x in a;
      var x :| x in a;
      SubsetBound(a - {x}, b - {x});
    }
  }

  /** Pigeonhole: when the list has more distinct ids than the history has
      entries, some card is not in the history. */
  lemma FreshCardExists(cards: seq<Card>, history: seq<int>)
    requires |Ids(cards)| > |history|
    ensures exists c :: c in cards && c.id !in history
  {
    if forall c :: c in cards ==> c.id in history {
      SubsetBound(Ids(cards), set x | x in history);
      ElementsBound(history);
      assert false;
    }
  }

  // ---------------------------------------------------------------------------
  // Specification of a video draw

  /** The indices below `n` that are not in the history, ascending. */
  function FreshIndices(n: nat, history: seq<int>): (r: seq<nat>)
    ensures forall i :: i in r <==> 0 <= i < n && i !in history
    ensures |r| <= n
  {
    if n == 0 then []
    else FreshIndices(n - 1, history) + (if n - 1 !in history then [n - 1] else [])
  }

  function AllIndices(n: nat): (r: seq<nat>)
    ensures |r| == n && forall i :: 0 <= i < n ==> r[i] == i
  {
    seq(n, i => i)
  }

  // ---------------------------------------------------------------------------
  // The selector

  /** The module-level histories. */
  class Selector {
    var recentCardIds: seq<int>
    var recentVideoIndices: seq<int>

    predicate Valid()
      reads this
    {
      |recentCardIds| <= MAX_CARD_HISTORY && |recentVideoIndices| <= MAX_VIDEO_HISTORY
    }

    constructor ()
      ensures Valid()
      ensures recentCardIds == [] && recentVideoIndices == []
    {
      recentCardIds := [];
      recentVideoIndices := [];
    }

    /** selectCard: a card from the pool, pushed into the card history. */
    method SelectCard(cards: seq<Card>, target: Rarity, words: nat -> nat) returns (card: Option<Card>)
      requires Valid()
      modifies this
      ensures Valid()
      ensures recentVideoIndices == old(recentVideoIndices)
      ensures cards == [] ==> card.None? && recentCardIds == old(recentCardIds)
      ensures cards != [] ==> card.Some? && card.value in Pool(Available(cards, old(recentCardIds)), target)
      ensures cards != [] ==> recentCardIds == PushBounded(old(recentCardIds), card.value.id, MAX_CARD_HISTORY)
    {
      if |cards| == 0 {
        return None;
      }
      var pool := Pool(Available(cards, recentCardIds), target);
      var shuffled := Shuffle(pool, words);
      assert shuffled[0] in multiset(shuffled);
      card := Some(shuffled[0]);
      recentCardIds := PushBounded(recentCardIds, shuffled[0].id, MAX_CARD_HISTORY);
    }

    /** selectVideo: an index not shown recently (the history is cleared first
        when every index was), pushed into the video history. */
    method SelectVideo<V>(videos: seq<V>, word: nat) returns (video: Option<V>, idx: int)
      requires Valid()
      modifies this
      ensures Valid()
      ensures recentCardIds == old(recentCardIds)
      ensures videos == [] ==> video.None? && recentVideoIndices == old(recentVideoIndices)
      ensures |videos| == 1 ==> video == Some(videos[0]) && recentVideoIndices == old(recentVideoIndices)
      ensures |videos| >= 2 ==> 0 <= idx < |videos| && video == Some(videos[idx])
      ensures |videos| >= 2 && FreshIndices(|videos|, old(recentVideoIndices)) != [] ==>
                idx !in old(recentVideoIndices) &&
                recentVideoIndices == PushBounded(old(recentVideoIndices), idx, MAX_VIDEO_HISTORY)
      ensures |videos| >= 2 && FreshIndices(|videos|, old(recentVideoIndices)) == [] ==>
                recentVideoIndices == [idx]
    {
      idx := 0;
      if |videos| == 0 {
        return None, idx;
      }
      if |videos| == 1 {
        return Some(videos[0]), idx;
      }
      var available := FreshIndices(|videos|, recentVideoIndices);
      if |available| == 0 {
        recentVideoIndices := [];
        available := AllIndices(|videos|);
      }
      idx := available[SecureRandom(word, |available|)];
      assert idx in available;
      recentVideoIndices := PushBounded(recentVideoIndices, idx, MAX_VIDEO_HISTORY);
      video := Some(videos[idx]);
    }

    method ResetCardHistory()
      modifies this
      ensures recentCardIds == [] && recentVideoIndices == old(recentVideoIndices)
    {
      recentCardIds := [];
    }

    method ResetVideoHistory()
      modifies this
      ensures recentVideoIndices == [] && recentCardIds == old(recentCardIds)
    {
      recentVideoIndices := [];
    }

    method ResetAllHistory()
      modifies this
      ensures recentCardIds == [] && recentVideoIndices == []
    {
      ResetCardHistory();
      ResetVideoHistory();
    }

    /** getCardHistory: a copy of the card history. */
    function GetCardHistory(): (h: seq<int>)
      reads this
      ensures h == recentCardIds
    {
      recentCardIds
    }

    function GetVideoHistory(): (h: seq<int>)
      reads this
      ensures h == recentVideoIndices
    {
      recentVideoIndices
    }
  }

  /** What a draw promises, from the pool's definition: the card is one of the
      list, it is fresh when any card is, and it has the rolled tier when an
      available card has it. */
  lemma DrawnCardProperties(cards: seq<Card>, history: seq<int>, target: Rarity, c: Card)
    requires c in Pool(Available(cards, history), target)
    ensures c in cards
    ensures (exists d :: d in cards && d.id !in history) ==> c.id !in history
    ensures (exists d :: d in Available(cards, history) && d.rarity == target) ==> c.rarity == target
  {
  }

  /** With more distinct ids than the history holds (11 or more), a draw never
      repeats a card shown within the last ten draws. */
  lemma NoRepeatWithinHistory(cards: seq<Card>, history: seq<int>, target: Rarity, c: Card)
    requires |history| <= MAX_CARD_HISTORY < |Ids(cards)|
    requires c in Pool(Available(cards, history), target)
    ensures c.id !in history
  {
    FreshCardExists(cards, history);
  }
}
