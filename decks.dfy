/** Themed decks: a deck names the card themes it draws from, or all of them. */
module Decks {
  import opened JsBuiltins
  import opened Cards

  /** A deck; `themes` None means every theme ('all'). */
  datatype Deck = Deck(id: string, name: string, emoji: string, description: string,
                       themes: Option<seq<string>>, color: string)

  const DECKS: map<string, Deck> := map[
    "all" := Deck("all", "Все карты", "🎴", "Полная колода — 70 диагнозов", None, "#4ecdc4"),
    "work" := Deck("work", "Работа и деньги", "💼", "14 карт про карьеру и финансы",
                   Some(["work", "things"]), "#f39c12"),
    "relations" := Deck("relations", "Отношения", "💕", "21 карта про любовь и социум",
                        Some(["relations", "lies", "crowd"]), "#e74c3c"),
    "meaning" := Deck("meaning", "Смысл жизни", "🌟", "21 карта про мечты и страхи",
                      Some(["meaning", "dreams", "fear"]), "#9b59b6"),
    "lifestyle" := Deck("lifestyle", "Быт и время", "⏰", "14 карт про привычки",
                        Some(["time", "comfort"]), "#3498db")
  ]

  /** `cards.filter(card => themes.includes(card.theme))` */
  function FilterByThemes(cards: seq<Card>, themes: seq<string>): (r: seq<Card>)
    ensures |r| <= |cards|
    ensures forall c :: c in r <==> (c in cards && c.theme in themes)
  {
    if cards == [] then []
    else (if cards[0].theme in themes then [cards[0]] else []) + FilterByThemes(cards[1..], themes)
  }

  /** getCardsForDeck: the input itself for an unknown deck or one without a
      theme list, otherwise the cards whose theme the deck lists. */
  function GetCardsForDeck(cards: seq<Card>, deckId: string): (r: seq<Card>)
    ensures (deckId !in DECKS || DECKS[deckId].themes.None?) ==> r == cards
    ensures deckId in DECKS && DECKS[deckId].themes.Some? ==>
      forall c :: c in r <==> (c in cards && c.theme in DECKS[deckId].themes.value)
  {
    if deckId !in DECKS || DECKS[deckId].themes.None? then cards
    else FilterByThemes(cards, DECKS[deckId].themes.value)
  }

  lemma {:induction false} FilterByThemesKeepsOrder(cards: seq<Card>, themes: seq<string>)
    ensures IsSubsequence(FilterByThemes(cards, themes), cards)
  {
    if cards != [] {
      FilterByThemesKeepsOrder(cards[1..], themes);
      var rest := FilterByThemes(cards[1..], themes);
      if cards[0].theme in themes {
        assert FilterByThemes(cards, themes) == [cards[0]] + rest;
        assert ([cards[0]] + rest)[1..] == rest;
      } else {
        // every card in rest has a listed theme, so rest cannot start with cards[0]
        assert FilterByThemes(cards, themes) == rest;
        assert rest != [] ==> rest[0] in rest && rest[0] != cards[0];
      }
    }
  }

  /** The deck's cards come in the order of the input. */
  lemma GetCardsForDeckKeepsOrder(cards: seq<Card>, deckId: string)
    ensures IsSubsequence(GetCardsForDeck(cards, deckId), cards)
  {
    if deckId !in DECKS || DECKS[deckId].themes.None? {
      SubsequenceRefl(cards);
    } else {
      FilterByThemesKeepsOrder(cards, DECKS[deckId].themes.value);
    }
  }

  lemma {:induction false} SubsequenceRefl<T>(s: seq<T>)
    ensures IsSubsequence(s, s)
  {
    if s != [] {
      SubsequenceRefl(s[1..]);
    }
  }

  /** Filtering cards that all have a listed theme keeps every one of them. */
  lemma {:induction false} FilterByThemesOfMatching(cards: seq<Card>, themes: seq<string>)
    requires forall c :: c in cards ==> c.theme in themes
    ensures FilterByThemes(cards, themes) == cards
  {
    if cards != [] {
      FilterByThemesOfMatching(cards[1..], themes);
    }
  }

  /** Filtering twice with the same deck is filtering once. */
  lemma GetCardsForDeckIdempotent(cards: seq<Card>, deckId: string)
    ensures GetCardsForDeck(GetCardsForDeck(cards, deckId), deckId) == GetCardsForDeck(cards, deckId)
  {
    if deckId in DECKS && DECKS[deckId].themes.Some? {
      FilterByThemesOfMatching(GetCardsForDeck(cards, deckId), DECKS[deckId].themes.value);
    }
  }
}
