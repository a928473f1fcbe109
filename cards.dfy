/** The static content the engine draws from: a card has a stable integer id,
    a theme, a rarity tier and one text per mode. The card list itself is
    content and is not part of this model. */
module Cards {
  import opened JsBuiltins

  /** The content tone: 'angry' or 'soft'. */
  datatype Mode = Angry | Soft

  datatype Rarity = Common | Rare | Legendary

  datatype CardText = CardText(hit: string, support: string, diagnosis: string)

  datatype Card = Card(id: int, theme: string, rarity: Rarity, angry: Option<CardText>, soft: Option<CardText>)

  /** One collected diagnosis, as the collection log stores it. */
  datatype Entry = Entry(id: int, mode: Mode, diagnosis: string)

  function ModeName(m: Mode): string {
    match m
    case Angry => "angry"
    case Soft => "soft"
  }

  function RarityName(r: Rarity): string {
    match r
    case Common => "common"
    case Rare => "rare"
    case Legendary => "legendary"
  }

  /** `card[mode]?.diagnosis`, the empty string standing for a missing one. */
  function DiagnosisOf(card: Card, m: Mode): string {
    var text := if m == Angry then card.angry else card.soft;
    if text.Some? then text.value.diagnosis else ""
  }
}
