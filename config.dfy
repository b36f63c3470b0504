/** The configuration constants of the backend (`/api/config.js`). */
module Config {

  /** How much each bookmaker's price is trusted when prices are averaged. */
  const BookWeights: map<string, real> := map[
    "pinnacle" := 1.6,
    "betonlineag" := 1.35,
    "bovada" := 1.15,
    "fanduel" := 1.0,
    "draftkings" := 1.0,
    "betmgm" := 0.95,
    "caesars" := 0.9,
    "betrivers" := 0.85,
    "barstool" := 0.8,
    "pointsbetus" := 0.85
  ]

  /** Hours after kickoff at which a game stops being served. */
  const GameHideHours: int := 8

  /** The weight of a book, `BOOK_WEIGHTS[key] || 1`: the table's entry, or 1 for a book it does not list. */
  function WeightOf(book: string): (w: real)
    ensures 0.8 <= w <= 1.6
    ensures book in BookWeights ==> w == BookWeights[book]
    ensures book !in BookWeights ==> w == 1.0
  {
    WeightsInRange();
    if book in BookWeights then BookWeights[book] else 1.0
  }

  lemma WeightsInRange()
    ensures forall k :: k in BookWeights ==> 0.8 <= BookWeights[k] <= 1.6
  {
  }

  /** Pinnacle, the market maker, outweighs every other listed book. */
  lemma PinnacleHeaviest()
    ensures "pinnacle" in BookWeights
    ensures forall k :: k in BookWeights && k != "pinnacle" ==> BookWeights[k] < BookWeights["pinnacle"]
  {
  }

  /** Only Pinnacle gets the top weight, whatever the book's key. */
  lemma TopWeightIsPinnacle(book: string)
    ensures WeightOf(book) == 1.6 <==> book == "pinnacle"
  {
  }

  /** The books whose prices count for less than an unlisted book's are exactly five. */
  lemma DiscountedBooks(book: string)
    ensures WeightOf(book) < 1.0 <==> book in ["betmgm", "caesars", "betrivers", "barstool", "pointsbetus"]
  {
  }

  /** The two large retail books carry the same, neutral weight. */
  lemma RetailBooksNeutral()
    ensures "fanduel" in BookWeights && "draftkings" in BookWeights
    ensures BookWeights["fanduel"] == BookWeights["draftkings"] == WeightOf("unlisted") == 1.0
  {
  }

  /** The hide window is eight hours, 28 800 000 milliseconds. */
  lemma HideWindow()
    ensures GameHideHours == 8 && GameHideHours * 3600 * 1000 == 28_800_000
  {
  }
}
