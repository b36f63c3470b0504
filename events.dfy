/**
 * The game-lines handler (`/api/events.js`) without its HTTP plumbing: hide finished games,
 * bucket each market's outcomes per bookmaker, pick a best price, and the two-way finaliser.
 */
module Events {
  import opened Wrappers
  import opened Feed
  import opened Config
  import opened OddsMath
  import opened Sorting
  import Arith

  // ---------- Expiry ----------

  /**
   * `isExpired`: a game is hidden once the clock is strictly past kickoff plus the hide window.
   * `now` stands for `Date.now()`, and kickoff is given in milliseconds.
   */
  function IsExpired(commenceTime: int, now: int): (expired: bool)
    ensures expired <==> now - commenceTime > 28_800_000
  {
    now > commenceTime + GameHideHours * 3600 * 1000
  }

  /** A game that is expired stays expired. */
  lemma ExpiryIsMonotone(commenceTime: int, now: int, later: int)
    requires now <= later && IsExpired(commenceTime, now)
    ensures IsExpired(commenceTime, later)
  {
  }

  /** A game is still shown exactly at the cutoff and hidden one millisecond later. */
  lemma ShownUntilCutoff(commenceTime: int)
    ensures !IsExpired(commenceTime, commenceTime + 8 * 3600 * 1000)
    ensures IsExpired(commenceTime, commenceTime + 8 * 3600 * 1000 + 1)
  {
  }

  // ---------- Best price ----------

  /** `entries.map(e => e[side]).filter(Boolean)`: the entries' records for `side`, in order. */
  function SideQuotes(entries: seq<map<string, PricedQuote>>, side: string): (qs: seq<PricedQuote>)
    ensures |qs| <= |entries|
    ensures qs == [] <==> forall i :: 0 <= i < |entries| ==> side !in entries[i]
    ensures forall q :: q in qs <==> exists i :: 0 <= i < |entries| && side in entries[i] && entries[i][side] == q
  {
    if entries == [] then []
    else
      var rest := SideQuotes(entries[1..], side);
      assert forall i :: 0 < i < |entries| ==> entries[i] == entries[1..][i - 1];
      (if side in entries[0] then [entries[0][side]] else []) + rest
  }

  /** Collecting distributes over concatenation, so the quotes keep the order of their entries. */
  lemma {:induction false} SideQuotesAppend(a: seq<map<string, PricedQuote>>, b: seq<map<string, PricedQuote>>, side: string)
    ensures SideQuotes(a + b, side) == SideQuotes(a, side) + SideQuotes(b, side)
  {
    if a == [] {
      assert a + b == b;
    } else {
      TailOfConcat(a, b);
      SideQuotesAppend(a[1..], b, side);
    }
  }

  /** A single entry contributes its quote for the side when it has one, and nothing otherwise. */
  lemma SideQuotesSingle(e: map<string, PricedQuote>, side: string)
    ensures SideQuotes([e], side) == if side in e then [e[side]] else []
  {
    assert [e][1..] == [];
  }

  function OddsKey(q: PricedQuote): real { q.odds as real }

  /**
   * `selectBestPrice`: the records for `side` sorted by odds, highest first, and the first of
   * them, or null. (The comparator's side test has the same branch on both arms, so the order is
   * the same for every side.)
   */
  function SelectBestPrice(entries: seq<map<string, PricedQuote>>, side: string): (best: Option<PricedQuote>)
    ensures best.None? <==> forall i :: 0 <= i < |entries| ==> side !in entries[i]
    ensures best.Some? ==> exists i :: 0 <= i < |entries| && side in entries[i] && entries[i][side] == best.value
    ensures best.Some? ==> forall i :: 0 <= i < |entries| && side in entries[i] ==> entries[i][side].odds <= best.value.odds
  {
    var candidates := SideQuotes(entries, side);
    var sorted := SortDesc(candidates, OddsKey);
    if sorted == [] then None
    else
      HeadIsMax(candidates, OddsKey);
      SortDescSpec(candidates, OddsKey);
      assert sorted[0] in multiset(candidates);
      assert sorted[0] in candidates;
      assert forall q :: q in candidates ==> OddsKey(q) <= OddsKey(sorted[0]);
      assert forall i :: 0 <= i < |entries| && side in entries[i] ==> entries[i][side] in candidates;
      Some(sorted[0])
  }

  /** Among records with the best odds, the one from the earliest entry wins (the sort is stable). */
  lemma BestPriceIsFirstOfBest(entries: seq<map<string, PricedQuote>>, side: string)
    requires SelectBestPrice(entries, side).Some?
    ensures exists k :: (0 <= k < |SideQuotes(entries, side)|
      && SideQuotes(entries, side)[k] == SelectBestPrice(entries, side).value
      && forall j :: 0 <= j < k ==> SideQuotes(entries, side)[j].odds < SelectBestPrice(entries, side).value.odds)
  {
    var k := SortHead(SideQuotes(entries, side), OddsKey);
  }

  // ---------- Per-book buckets ----------

  /** One outcome as bucketed: `{ name, point, odds, prob, w }`. */
  datatype BookOutcome = BookOutcome(name: string, point: Option<real>, odds: int, prob: real, w: real)

  /** `markets.find(m => m.key === key)`: the first market with that key. */
  function FindMarket(markets: seq<Market>, key: string): (r: Option<Market>)
    ensures r.Some? ==> r.value.key == key
  {
    if markets == [] then None
    else if markets[0].key == key then Some(markets[0])
    else FindMarket(markets[1..], key)
  }

  /** `find` yields nothing exactly when no market has the key, and otherwise the first one that has it. */
  lemma {:induction false} FindMarketFirst(markets: seq<Market>, key: string)
    ensures FindMarket(markets, key).None? <==> forall j :: 0 <= j < |markets| ==> markets[j].key != key
    ensures FindMarket(markets, key).Some? ==> exists j :: (0 <= j < |markets| && markets[j] == FindMarket(markets, key).value
      && forall j' :: 0 <= j' < j ==> markets[j'].key != key)
  {
    if markets != [] && markets[0].key != key {
      FindMarketFirst(markets[1..], key);
      assert forall j :: 0 < j < |markets| ==> markets[j] == markets[1..][j - 1];
      if FindMarket(markets, key).Some? {
        var j :| 0 <= j < |markets[1..]| && markets[1..][j] == FindMarket(markets, key).value
          && forall j' :: 0 <= j' < j ==> markets[1..][j'].key != key;
        assert markets[j + 1] == FindMarket(markets, key).value;
      }
    }
  }

  function OutcomeRecord(o: Outcome, w: real): BookOutcome
  {
    BookOutcome(o.name, o.point, o.price, ImpliedProb(o.price as real), w)
  }

  /** The records pushed for `outcomes`, in their order. */
  function OutcomeRecords(outcomes: seq<Outcome>, w: real): (rs: seq<BookOutcome>)
    ensures |rs| == |outcomes|
  {
    if outcomes == [] then []
    else OutcomeRecords(outcomes[..|outcomes| - 1], w) + [OutcomeRecord(outcomes[|outcomes| - 1], w)]
  }

  /** One record per outcome, in the outcomes' order, each carrying the implied probability of its price. */
  lemma {:induction false} OutcomeRecordsContent(outcomes: seq<Outcome>, w: real)
    ensures forall j :: 0 <= j < |outcomes| ==> OutcomeRecords(outcomes, w)[j] == OutcomeRecord(outcomes[j], w)
    ensures forall r :: r in OutcomeRecords(outcomes, w) ==> r.prob == ImpliedProb(r.odds as real) && r.w == w
  {
    if outcomes != [] {
      var pre := outcomes[..|outcomes| - 1];
      OutcomeRecordsContent(pre, w);
      assert forall j :: 0 <= j < |pre| ==> pre[j] == outcomes[j];
    }
  }

  /** The `for (const o of m.outcomes) buckets[b.key].push(...)` loop, on the bucket it grows. */
  method PushOutcomes(bucket: seq<BookOutcome>, outcomes: seq<Outcome>, weight: real) returns (grown: seq<BookOutcome>)
    ensures grown == bucket + OutcomeRecords(outcomes, weight)
  {
    grown := bucket;
    var j := 0;
    while j < |outcomes|
      invariant 0 <= j <= |outcomes|
      invariant grown == bucket + OutcomeRecords(outcomes[..j], weight)
    {
      assert outcomes[..j + 1][..j] == outcomes[..j];
      grown := grown + [OutcomeRecord(outcomes[j], weight)];
      j := j + 1;
    }
    assert outcomes[..j] == outcomes;
  }

  /** `buckets` once book `b` has been visited: its records appended when it quotes the market. */
  function AddBook(before: map<string, seq<BookOutcome>>, b: Bookmaker, marketKey: string): map<string, seq<BookOutcome>>
  {
    match FindMarket(b.markets, marketKey)
    case None => before
    case Some(m) =>
      before[b.key := (if b.key in before then before[b.key] else []) + OutcomeRecords(m.outcomes, WeightOf(b.key))]
  }

  /** The `buckets` dictionary once the loop of `aggregateMarket` has visited the first `n` books. */
  function BucketsUpTo(bms: seq<Bookmaker>, n: nat, marketKey: string): map<string, seq<BookOutcome>>
    requires n <= |bms|
  {
    if n == 0 then map[] else AddBook(BucketsUpTo(bms, n - 1, marketKey), bms[n - 1], marketKey)
  }

  function Buckets(bms: seq<Bookmaker>, marketKey: string): map<string, seq<BookOutcome>>
  {
    BucketsUpTo(bms, |bms|, marketKey)
  }

  /** `aggregateMarket`: one bucket per book key holding the records of its `marketKey` market. */
  method AggregateMarket(bookmakers: seq<Bookmaker>, marketKey: string) returns (buckets: map<string, seq<BookOutcome>>)
    ensures buckets == Buckets(bookmakers, marketKey)
  {
    buckets := map[];
    var i := 0;
    while i < |bookmakers|
      invariant 0 <= i <= |bookmakers|
      invariant buckets == BucketsUpTo(bookmakers, i, marketKey)
    {
      var b := bookmakers[i];
      var weight := WeightOf(b.key);
      var market := FindMarket(b.markets, marketKey);
      if market.Some? {
        ghost var before := buckets;
        if b.key !in buckets {
          buckets := buckets[b.key := []];
        }
        // `buckets[b.key]` is one array that every push grows.
        var bucket := PushOutcomes(buckets[b.key], market.value.outcomes, weight);
        assert buckets[b.key := bucket] == before[b.key := bucket];
        buckets := buckets[b.key := bucket];
      }
      i := i + 1;
    }
  }

  /**
   * Reference definition of one bucket: the records of every one of the first `n` books keyed
   * `book` that quotes the market, book after book.
   */
  function BookBucket(bms: seq<Bookmaker>, n: nat, marketKey: string, book: string): seq<BookOutcome>
    requires n <= |bms|
  {
    if n == 0 then [] else BookBucket(bms, n - 1, marketKey, book) + BookRecords(bms[n - 1], marketKey, book)
  }

  /** The records one entry contributes to the bucket of `book`: none unless it is that book and quotes the market. */
  function BookRecords(b: Bookmaker, marketKey: string, book: string): seq<BookOutcome>
  {
    if b.key != book then []
    else match FindMarket(b.markets, marketKey)
      case Some(m) => OutcomeRecords(m.outcomes, WeightOf(book))
      case None => []
  }

  /** After the first `n` books, a book has a bucket exactly when one of its entries quotes the market. */
  lemma {:induction false} BucketsDomain(bms: seq<Bookmaker>, n: nat, marketKey: string, book: string)
    requires n <= |bms|
    ensures book in BucketsUpTo(bms, n, marketKey) <==>
      exists i :: 0 <= i < n && bms[i].key == book && FindMarket(bms[i].markets, marketKey).Some?
  {
    if n > 0 {
      BucketsDomain(bms, n - 1, marketKey, book);
    }
  }

  /** Each bucket is the reference concatenation of the records of the entries of its book. */
  lemma {:induction false} BucketsContent(bms: seq<Bookmaker>, n: nat, marketKey: string, book: string)
    requires n <= |bms|
    ensures book in BucketsUpTo(bms, n, marketKey) ==> BucketsUpTo(bms, n, marketKey)[book] == BookBucket(bms, n, marketKey, book)
    ensures book !in BucketsUpTo(bms, n, marketKey) ==> BookBucket(bms, n, marketKey, book) == []
  {
    if n > 0 {
      BucketsContent(bms, n - 1, marketKey, book);
    }
  }

  /** Every bucketed record carries the implied probability of its price and its book's positive weight. */
  lemma {:induction false} BucketRecordsWeighted(bms: seq<Bookmaker>, n: nat, marketKey: string, book: string)
    requires n <= |bms|
    ensures RecordsWeighted(BookBucket(bms, n, marketKey, book), book)
  {
    if n > 0 {
      BucketRecordsWeighted(bms, n - 1, marketKey, book);
      var m := FindMarket(bms[n - 1].markets, marketKey);
      if m.Some? && bms[n - 1].key == book {
        OutcomeRecordsContent(m.value.outcomes, WeightOf(book));
      }
      RecordsWeightedAppend(BookBucket(bms, n - 1, marketKey, book), BookRecords(bms[n - 1], marketKey, book), book);
    }
  }

  /** Every record carries the implied probability of its price and the positive weight of `book`. */
  predicate RecordsWeighted(rs: seq<BookOutcome>, book: string)
  {
    forall r :: r in rs ==> r.prob == ImpliedProb(r.odds as real) && r.w == WeightOf(book) && r.w > 0.0
  }

  lemma RecordsWeightedAppend(a: seq<BookOutcome>, b: seq<BookOutcome>, book: string)
    requires RecordsWeighted(a, book) && RecordsWeighted(b, book)
    ensures RecordsWeighted(a + b, book)
  {
  }

  /**
   * For a book listed once, its bucket is one record per outcome of its first market with the
   * key, in outcome order.
   */
  lemma SingleBookBucket(bms: seq<Bookmaker>, marketKey: string, i: nat, m: Market)
    requires i < |bms| && FindMarket(bms[i].markets, marketKey) == Some(m)
    requires forall j :: 0 <= j < |bms| && j != i ==> bms[j].key != bms[i].key
    ensures bms[i].key in Buckets(bms, marketKey)
    ensures Buckets(bms, marketKey)[bms[i].key] == OutcomeRecords(m.outcomes, WeightOf(bms[i].key))
  {
    BucketsDomain(bms, |bms|, marketKey, bms[i].key);
    BucketsContent(bms, |bms|, marketKey, bms[i].key);
    BookBucketSingle(bms, |bms|, marketKey, i, m);
  }

  lemma {:induction false} BookBucketSingle(bms: seq<Bookmaker>, n: nat, marketKey: string, i: nat, m: Market)
    requires i < n <= |bms| && FindMarket(bms[i].markets, marketKey) == Some(m)
    requires forall j :: 0 <= j < n && j != i ==> bms[j].key != bms[i].key
    ensures BookBucket(bms, n, marketKey, bms[i].key) == OutcomeRecords(m.outcomes, WeightOf(bms[i].key))
  {
    var prev := BookBucket(bms, n - 1, marketKey, bms[i].key);
    var last := BookRecords(bms[n - 1], marketKey, bms[i].key);
    if i < n - 1 {
      BookBucketSingle(bms, n - 1, marketKey, i, m);
      assert last == [];
      assert prev + last == prev;
    } else {
      BookBucketAbsent(bms, n - 1, marketKey, bms[i].key);
      assert last == OutcomeRecords(m.outcomes, WeightOf(bms[i].key));
      assert prev + last == last;
    }
  }

  lemma {:induction false} BookBucketAbsent(bms: seq<Bookmaker>, n: nat, marketKey: string, book: string)
    requires n <= |bms|
    requires forall j :: 0 <= j < n ==> bms[j].key != book
    ensures BookBucket(bms, n, marketKey, book) == []
  {
    if n > 0 {
      BookBucketAbsent(bms, n - 1, marketKey, book);
    }
  }

  // ---------- The handler's game list ----------

  /** One game as served: its identity copied, and its three markets bucketed. */
  datatype GameView = GameView(
    id: string, homeTeam: string, awayTeam: string, commenceTime: int,
    h2h: map<string, seq<BookOutcome>>,
    spreads: map<string, seq<BookOutcome>>,
    totals: map<string, seq<BookOutcome>>)

  function ViewOf(g: Game): (v: GameView)
    ensures v.id == g.id && v.homeTeam == g.homeTeam && v.awayTeam == g.awayTeam
    ensures v.commenceTime == g.commenceTime
    ensures v.h2h == Buckets(g.bookmakers, "h2h")
    ensures v.spreads == Buckets(g.bookmakers, "spreads")
    ensures v.totals == Buckets(g.bookmakers, "totals")
  {
    GameView(g.id, g.homeTeam, g.awayTeam, g.commenceTime,
      Buckets(g.bookmakers, "h2h"), Buckets(g.bookmakers, "spreads"), Buckets(g.bookmakers, "totals"))
  }

  /** `games.filter(g => !isExpired(g.commence_time)).map(...)` at time `now`. */
  function ListGames(games: seq<Game>, now: int): (out: seq<GameView>)
    ensures |out| <= |games|
  {
    if games == [] then []
    else (if IsExpired(games[0].commenceTime, now) then [] else [ViewOf(games[0])]) + ListGames(games[1..], now)
  }

  /** Listing distributes over concatenation, so the games keep their relative order. */
  lemma {:induction false} ListGamesAppend(a: seq<Game>, b: seq<Game>, now: int)
    ensures ListGames(a + b, now) == ListGames(a, now) + ListGames(b, now)
  {
    if a != [] {
      assert (a + b)[1..] == a[1..] + b;
      ListGamesAppend(a[1..], b, now);
    } else {
      assert a + b == b;
    }
  }

  /** A single game is listed exactly when it is not expired. */
  lemma ListGamesSingle(g: Game, now: int)
    ensures ListGames([g], now) == if IsExpired(g.commenceTime, now) then [] else [ViewOf(g)]
  {
  }

  /** The list holds the views of the non-expired games, and of nothing else. */
  lemma {:induction false} ListGamesMembers(games: seq<Game>, now: int)
    ensures forall v :: v in ListGames(games, now) <==>
      exists i :: 0 <= i < |games| && !IsExpired(games[i].commenceTime, now) && v == ViewOf(games[i])
    ensures |ListGames(games, now)| == |games| <==> forall i :: 0 <= i < |games| ==> !IsExpired(games[i].commenceTime, now)
  {
    if games != [] {
      ListGamesMembers(games[1..], now);
      assert forall i :: 0 < i < |games| ==> games[i] == games[1..][i - 1];
    }
  }

  // ---------- Two-way finaliser ----------

  /** One side of a finalised two-way market. */
  datatype SideSignal = SideSignal(consensusProb: real, stability: real, ev: real)

  datatype TwoWaySignal = TwoWaySignal(home: SideSignal, away: SideSignal)

  /**
   * `finalizeTwoWay`, over the `{ p, odds, w }` records it reads. None stands for the result the
   * source computes from an empty side list, whose consensus and EV fields are NaN.
   */
  function FinalizeTwoWay(homeList: seq<PricedQuote>, awayList: seq<PricedQuote>): (r: Option<TwoWaySignal>)
    requires AllValid(homeList) && AllValid(awayList)
    ensures r.None? <==> homeList == [] || awayList == []
    ensures r.Some? ==> SumW(homeList) > 0.0 && SumW(awayList) > 0.0
    ensures r.Some? ==> r.value.home.consensusProb * (WeightedAverage(awayList) + WeightedAverage(homeList)) == WeightedAverage(homeList)
    ensures r.Some? ==> r.value.away.consensusProb * (WeightedAverage(awayList) + WeightedAverage(homeList)) == WeightedAverage(awayList)
    ensures r.Some? ==> r.value.home.consensusProb + r.value.away.consensusProb == 1.0
    ensures r.Some? ==> 0.0 < r.value.home.consensusProb < 1.0 && 0.0 < r.value.away.consensusProb < 1.0
    ensures r.Some? ==> r.value.home.stability == r.value.away.stability == StabilityScore(Probs(homeList) + Probs(awayList))
    ensures r.Some? ==> r.value.home.ev == ExpectedValue(r.value.home.consensusProb, homeList[0].odds as real)
    ensures r.Some? ==> r.value.away.ev == ExpectedValue(r.value.away.consensusProb, awayList[0].odds as real)
  {
    if homeList == [] || awayList == [] then None
    else
      WeightedAverageInUnit(homeList);
      WeightedAverageInUnit(awayList);
      var homeFair := WeightedAverage(homeList);
      var awayFair := WeightedAverage(awayList);
      var fair := NoVig(awayFair, homeFair);
      var stability := StabilityScore(Probs(homeList) + Probs(awayList));
      Some(TwoWaySignal(
        SideSignal(fair.1, stability, ExpectedValue(fair.1, homeList[0].odds as real)),
        SideSignal(fair.0, stability, ExpectedValue(fair.0, awayList[0].odds as real))))
  }

  /** The side whose books lean to it more heavily, on weighted average, gets the larger fair probability. */
  lemma TwoWayFavourite(homeList: seq<PricedQuote>, awayList: seq<PricedQuote>)
    requires AllValid(homeList) && AllValid(awayList) && homeList != [] && awayList != []
    ensures SumW(homeList) > 0.0 && SumW(awayList) > 0.0
    ensures var r := FinalizeTwoWay(homeList, awayList).value;
      r.home.consensusProb > r.away.consensusProb <==> WeightedAverage(homeList) > WeightedAverage(awayList)
  {
    WeightedAverageInUnit(homeList);
    WeightedAverageInUnit(awayList);
    var r := FinalizeTwoWay(homeList, awayList).value;
    var fairHome, fairAway := WeightedAverage(homeList), WeightedAverage(awayList);
    Arith.ScaledOrder(r.home.consensusProb, r.away.consensusProb, fairAway + fairHome, fairHome, fairAway);
  }

  /** A side of the two-way market has positive EV exactly when its consensus beats its first book's price. */
  lemma TwoWayEvSign(homeList: seq<PricedQuote>, awayList: seq<PricedQuote>)
    requires AllValid(homeList) && AllValid(awayList) && homeList != [] && awayList != []
    ensures var r := FinalizeTwoWay(homeList, awayList).value;
      (r.home.ev > 0.0 <==> r.home.consensusProb > ImpliedProb(homeList[0].odds as real))
      && (r.away.ev > 0.0 <==> r.away.consensusProb > ImpliedProb(awayList[0].odds as real))
  {
    var r := FinalizeTwoWay(homeList, awayList).value;
    EvPositiveIffBeatsPrice(r.home.consensusProb, homeList[0].odds as real);
    EvPositiveIffBeatsPrice(r.away.consensusProb, awayList[0].odds as real);
  }
}
