/** Optional values: JavaScript's `null`/`undefined` on one side, a value on the other. */
module Wrappers {
  datatype Option<+T> = None | Some(value: T)
}

/**
 * The odds feed as the engine receives it once the HTTP layer has parsed it:
 * games, each with bookmakers, each with markets, each with priced outcomes.
 * A missing array in the JSON (`b.markets || []`) is the empty sequence here.
 */
module Feed {
  import opened Wrappers

  /** One priced outcome: `{ name, description, point, price }`; American odds are integers. */
  datatype Outcome = Outcome(name: string, description: Option<string>, point: Option<real>, price: int)

  /** One market of one bookmaker, keyed `h2h`, `spreads`, `totals`, `player_pass_yds`, ... */
  datatype Market = Market(key: string, outcomes: seq<Outcome>)

  /** One bookmaker: its key (`pinnacle`), its display title and its markets. */
  datatype Bookmaker = Bookmaker(key: string, title: string, markets: seq<Market>)

  /** One game; `commenceTime` is the kickoff as milliseconds since the epoch. */
  datatype Game = Game(id: string, homeTeam: string, awayTeam: string, commenceTime: int, bookmakers: seq<Bookmaker>)

  /** Every outcome of the market quotes a non-zero price. */
  predicate MarketPriced(m: Market)
  {
    forall k :: 0 <= k < |m.outcomes| ==> m.outcomes[k].price != 0
  }

  /** Every outcome of every market of the bookmaker quotes a non-zero price. */
  predicate BookPriced(b: Bookmaker)
  {
    forall j :: 0 <= j < |b.markets| ==> MarketPriced(b.markets[j])
  }

  /** Every outcome of every market of every bookmaker quotes a non-zero price. */
  predicate PricesNonZero(bms: seq<Bookmaker>)
  {
    forall i :: 0 <= i < |bms| ==> BookPriced(bms[i])
  }
}
