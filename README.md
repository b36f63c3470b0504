# Empire Picks — a verified model of the odds engine

Empire Picks is a small NFL betting dashboard. Two serverless handlers read a sportsbook odds feed
(American odds, several bookmakers per game) and turn it into consensus numbers. A browser script
then draws the feed as tables. This project models the computational core of both sides in Dafny
and proves what each step promises.

* **Odds arithmetic** (`OddsMath`, odds_math.dfy):
  * implied probability of an American price;
  * removing the bookmaker's margin ("vig") from a two-way market;
  * a book-weighted consensus;
  * the stability score (1 minus 400 times the variance of the books' probabilities, floored at 0);
  * expected value per unit staked;
  * the composite confidence score.
* **Configuration** (`Config`, config.dfy): the bookmaker weights and the 8-hour cutoff after
  kickoff.
* **Game odds handler** (`Events`, events.dfy):
  * hiding expired games;
  * per-book buckets of `h2h`, `spreads` and `totals` outcomes, each with its implied probability
    and its book's weight;
  * the best-price selection;
  * the two-way finaliser that turns two sides' quotes into fair probabilities, a shared
    stability value and EVs.
* **Player props handler** (`Props`, props.dfy):
  * normalising player names (collapse whitespace, strip generational suffixes, trim);
  * bucketing every outcome of every market into over/under lines keyed by player and point;
  * finalising each market: drop one-sided lines, take fair probabilities, EVs and best prices,
    sort by best EV, keep the top three.
* **Browser script** (`Script`, script.dfy):
  * the `money`, `implied`, `avg` and `label` helpers;
  * the game-lines table, one row per book for at most eight books;
  * the player-props panel: outcomes grouped by market key, five markets shown in a fixed
    order, each capped at 40 rows.
* **Shared pieces:**
  * `Feed` and `Wrappers` (feed.dfy): the parsed feed and `Option`.
  * `Sorting` (sorting.dfy): the stable descending sort that JavaScript's `Array.prototype.sort`
    performs.
  * `Sums` and `Arith` (sums.dfy): sums of reals and small arithmetic facts.

The loops of the source are kept as methods with loop invariants. Examples are the bucketing
loops of both handlers, the props finalisation over market keys, and the row and group building
of the script. Each method is proved equal to a recursive function of its inputs, and the
properties are proved about those functions.

Prices are integers, because American odds are served that way. Probabilities and weights are
exact reals. A field that may be missing from the feed is an `Option`. Wall-clock time is a
parameter `now`, measured in milliseconds since the epoch.

## Model

| member | source | states |
|---|---|---|
| Config.WeightOf | config.js:6-17 | a listed book weighs its table entry and an unlisted book weighs 1, so every weight is between 0.8 and 1.6 |
| Config.TopWeightIsPinnacle | config.js:6-17 | a book gets the top weight 1.6 exactly when it is Pinnacle |
| Config.DiscountedBooks | config.js:6-17 | a book weighs less than an unlisted one exactly when it is BetMGM, Caesars, BetRivers, Barstool or PointsBet |
| Config.WeightsInRange | config.js:6-17 | every listed weight lies in [0.8, 1.6] |
| Config.PinnacleHeaviest | config.js:6-17 | Pinnacle is listed and outweighs every other listed book |
| Config.RetailBooksNeutral | config.js:6-17 | FanDuel and DraftKings weigh exactly as much as an unlisted book (1) |
| Config.HideWindow | config.js:19 | the hide window is 8 hours, which is 28 800 000 ms |
| OddsMath.ImpliedProb | api/math.js:5-9 | a non-zero price gives a probability strictly between 0 and 1; a zero price gives 0 |
| OddsMath.ImpliedEvenMoney | api/math.js:5-9 | +100 and -100 both mean 50% |
| OddsMath.ImpliedMirror | api/math.js:5-9 | a price and its negation have implied probabilities summing to 1 |
| OddsMath.ImpliedDecreasing | api/math.js:5-9 | on valid prices (\|odds\| >= 100), a higher price never has a higher implied probability, and has a strictly lower one except for the -100/+100 pair |
| OddsMath.RemoveVig | api/math.js:11-17 | the two fair probabilities sum to 1 and are the inputs rescaled by their total; positive inputs give results strictly inside (0, 1) |
| OddsMath.RemoveVigKeepsRatio | api/math.js:11-17 | removing the vig keeps the ratio of the two sides |
| OddsMath.RemoveVigEqualSides | api/math.js:11-17 | two equal sides become 50/50 |
| OddsMath.NoVig | api/props.js:92 | the pair the callers destructure has the same sum-to-1, rescaling and range properties as RemoveVig |
| OddsMath.WeightedAverage | api/props.js:89-90 | the assumed `weightedAverage`, Σ p·w / Σ w over the quotes; its range is stated by WeightedAverageInUnit and WeightedAverageBetween |
| OddsMath.WeightedAverageInUnit | api/props.js:89-90 | a non-empty list of valid quotes has a positive weight sum, and its weighted consensus lies strictly inside (0, 1) |
| OddsMath.WeightedAverageBetween | api/events.js:61-62 | a consensus over positively weighted quotes lies between the smallest and largest quoted probability |
| OddsMath.StabilityScore | api/math.js:23-34 | fewer than two probabilities give 0, and the score always lies in [0, 1] |
| OddsMath.StabilityPermutation | api/math.js:23-34 | the score does not depend on the order of the books |
| OddsMath.StabilityOneWhenBooksAgree | api/math.js:23-34 | two or more identical probabilities give exactly 1 |
| OddsMath.Payout | api/math.js:39 | the profit per unit staked at a non-zero price is positive |
| OddsMath.ExpectedValue | api/math.js:38-41 | for a probability in [0, 1] the EV lies between -1 (a sure loss) and the payout (a sure win), and reaches each end |
| OddsMath.EvZeroAtImpliedPrice | api/math.js:38-41 | betting at exactly the price's own implied probability has EV 0 |
| OddsMath.EvStrictlyIncreasing | api/math.js:38-41 | at a fixed price, EV strictly increases with the probability |
| OddsMath.EvPositiveIffBeatsPrice | api/math.js:38-41 | EV is positive exactly when the probability beats the price's implied probability |
| OddsMath.ConfidenceScore | api/math.js:46-52 | the score is non-negative when stability is, and lies in [0, 1] when \|lean\|, stability and EV are within their unit ranges |
| OddsMath.ConfidenceIgnoresLeanSign | api/math.js:46-52 | a lean and its negation give the same confidence |
| OddsMath.ConfidenceIgnoresNegativeEv | api/math.js:46-52 | a negative EV counts as 0 |
| OddsMath.ConfidenceMonotone | api/math.js:46-52 | a larger \|lean\|, stability or EV never lowers the confidence |
| Events.IsExpired | api/events.js:20-24 | a game is expired exactly when more than 8 hours (28 800 000 ms) have passed since kickoff |
| Events.ExpiryIsMonotone | api/events.js:20-24 | once expired, a game stays expired |
| Events.ShownUntilCutoff | api/events.js:20-24 | a game is still shown at exactly kickoff plus 8 hours and hidden one millisecond later |
| Events.SideQuotes | api/events.js:27-29 | the quotes for a side are exactly the entries' values for that side, and there are none exactly when no entry has the side |
| Events.SideQuotesAppend | api/events.js:27-29 | collecting distributes over concatenation, so the quotes keep the order of their entries |
| Events.SideQuotesSingle | api/events.js:27-29 | a single entry contributes its quote for the side when it has one, and nothing otherwise |
| Events.SelectBestPrice | api/events.js:26-34 | the result is null exactly when no entry quotes the side; otherwise it is one of the entries' quotes and no entry quotes higher odds |
| Events.BestPriceIsFirstOfBest | api/events.js:30-33 | among quotes tied at the best odds, the earliest one wins (stable sort) |
| Events.FindMarket | api/events.js:41 | a found market has the requested key |
| Events.FindMarketFirst | api/events.js:41-42 | no market is found exactly when no market has the key; otherwise the result is the first market with the key |
| Events.OutcomeRecords | api/events.js:46-54 | one record is pushed per outcome |
| Events.OutcomeRecordsContent | api/events.js:46-54 | record j copies outcome j's name, point and price, its probability is the price's implied probability, and its weight is the book's |
| Events.PushOutcomes | api/events.js:46-54 | the loop appends the outcomes' records to the bucket, in order |
| Events.Buckets | api/events.js:36-57 | the reference buckets of one market, book by book; what they hold is stated by BucketsDomain and BucketsContent |
| Events.AggregateMarket | api/events.js:36-58 | the loop over bookmakers builds exactly the reference buckets |
| Events.BucketsDomain | api/events.js:39-44 | a book has a bucket exactly when some bookmaker with that key has the market |
| Events.BucketsContent | api/events.js:36-58 | a book's bucket is the concatenation of the records of its bookmakers that have the market, in feed order |
| Events.BucketRecordsWeighted | api/events.js:40-53 | every record in a book's bucket carries that book's weight and its price's implied probability |
| Events.SingleBookBucket | api/events.js:36-58 | a bookmaker whose key is unique gets a bucket holding exactly its market's outcomes, weighted by its weight |
| Events.BookBucketSingle | api/events.js:36-58 | the same within the first n bookmakers |
| Events.BookBucketAbsent | api/events.js:36-58 | a book key that no bookmaker has gets no records |
| Events.ViewOf | api/events.js:103-113 | a served game copies the feed game's id, teams and kickoff, and its `h2h`, `spreads` and `totals` fields are the per-book buckets of that market |
| Events.ListGames | api/events.js:96-114 | the served list is never longer than the feed |
| Events.ListGamesAppend | api/events.js:96-114 | listing distributes over concatenation, so served games keep their feed order |
| Events.ListGamesSingle | api/events.js:96-114 | a single game is served exactly when it is not expired |
| Events.ListGamesMembers | api/events.js:96-114 | a view is served exactly when it is the view of some non-expired feed game; nothing is dropped exactly when no game is expired |
| Events.FinalizeTwoWay | api/events.js:60-83 | with both sides quoted, each fair probability is that side's weighted consensus rescaled by the sum of both consensuses, so they sum to 1 and lie strictly inside (0, 1); both sides share the stability of all the quoted probabilities, and each EV is taken at the side's first quoted price; with a side missing there is no result |
| Events.TwoWayFavourite | api/events.js:60-83 | the home side gets the larger fair probability exactly when its weighted consensus is the larger |
| Events.TwoWayEvSign | api/events.js:60-83 | a side's EV is positive exactly when its consensus probability beats the implied probability of its first quoted price |
| Props.CollapseSpaces | api/props.js:21 | the result is empty exactly when the input is, and starts with whitespace exactly when the input does |
| Props.CollapseIsScan | api/props.js:21 | collapsing equals the character-by-character reading of the replace: a whitespace character becomes one space when it starts a run and vanishes otherwise, and every other character is kept |
| Props.ScanKeepsRuns | api/props.js:21 | that reading turns each whitespace run into exactly one space, so the number of runs is unchanged |
| Props.ScanEnds | api/props.js:21 | a non-empty reading ends with whitespace exactly when its input does |
| Props.CollapseKeepsRuns | api/props.js:21 | collapsing keeps the number of whitespace runs, and a non-empty name still ends with whitespace exactly when it did |
| Props.CollapseSpacesShape | api/props.js:21 | after collapsing, every whitespace character is a plain space, no two are adjacent, and the non-whitespace characters are unchanged and in order |
| Props.StripSuffixes | api/props.js:22 | stripping suffixes never lengthens the name; StripsAppendedSuffix states that the rest of the name is kept |
| Props.SuffixWhole | api/props.js:22 | each of " Jr.", " Jr", " III", " II", " IV" and " V" is matched whole when read on its own |
| Props.StripsAppendedSuffix | api/props.js:22 | a name with no match anywhere, followed by one generational suffix, strips back to exactly that name |
| Props.StripsVanishingTail | api/props.js:22 | more generally, a name with no match anywhere keeps every character when followed by any text that starts with a space and is removed whole |
| Props.StripIsSubsequence | api/props.js:22 | the stripped name is the input with some characters removed, the rest kept in order |
| Props.StripKeepsChars | api/props.js:22 | every character of the stripped name is a character of the input |
| Props.StripKeeps | api/props.js:22 | a name with no suffix match at any position is returned unchanged |
| Props.Trim | api/props.js:23 | trimming never lengthens the name |
| Props.TrimDropsOnlySpaces | api/props.js:23 | the input is the trimmed text with whitespace-only strings before and after it |
| Props.TrimShape | api/props.js:23 | the trimmed text neither starts nor ends with whitespace, and holds only characters of the input |
| Props.NormalizePlayer | api/props.js:19-24 | a missing name stays missing, and a present name stays present |
| Props.NormalizedIsTidy | api/props.js:19-24 | a normalised name has no whitespace at either end |
| Props.NormalizeKeepsCleanNames | api/props.js:19-24 | a name that is already single-spaced and trimmed and has no suffix is returned unchanged |
| Props.SuffixExamples | api/props.js:22 | " Jr.", " III", " II" and " IV" are removed whole, so the longer alternatives win over " V" |
| Props.SurnameInitialV | api/props.js:22 | the " V" alternative also removes a surname's initial V, so " Vo" becomes "o" |
| Props.Lower | api/props.js:60 | lower-casing keeps the length, leaves no capital letter, and leaves every character that is not a capital letter unchanged |
| Props.LowerIdempotent | api/props.js:60 | lower-casing twice is lower-casing once |
| Props.IsOverName | api/props.js:60 | an outcome goes on the over side exactly when "over" occurs somewhere in its lower-cased name |
| Props.ContainsMeaning | api/props.js:60 | `includes` is true exactly when the text occurs at some position |
| Props.SideExamples | api/props.js:60 | "Over" is the over side, while "Under" and "Yes" go to the under side |
| Props.KeyOf | api/props.js:62 | the key carries the point and the player's text, "undefined" when missing; KeyOfCollisions states when two keys coincide |
| Props.KeyOfCollisions | api/props.js:62 | a line key is the player's text ("undefined" when missing) with the point, so two outcomes share a line exactly when their points agree and their players agree, or one player is missing and the other is literally "undefined" |
| Props.FindLine | api/props.js:64 | a line is found exactly when some line has the key, and a found index holds that key |
| Props.AddOutcomeRouting | api/props.js:64-77 | an outcome opens a new line exactly when none has its key, leaves every other line untouched, and pushes its quote onto its line's side |
| Props.PushOutcome | api/props.js:59-77 | one outcome visited by the loop body is the reference step |
| Props.PushOutcomes | api/props.js:58-78 | the outcome loop builds exactly the reference lines |
| Props.BucketMarket | api/props.js:56-78 | one market visited (its key opened when new) is the reference step |
| Props.BucketBook | api/props.js:53-79 | one bookmaker visited with its weight is the reference fold over its markets |
| Props.BucketProps | api/props.js:50-80 | the bookmaker loop builds exactly the reference buckets |
| Props.AddMarketsKeepsOk | api/props.js:55-79 | visiting a book's markets keeps every line's key unique within its market and every quote valid |
| Props.PropBucketsOk | api/props.js:50-80 | for a feed of non-zero prices, the buckets have unique line keys per market and only valid quotes |
| Props.AddOutcomesCount | api/props.js:58-78 | each outcome adds exactly one quote to its market's lines, none lost or duplicated |
| Props.PropBucketsCount | api/props.js:50-80 | a market's lines hold exactly as many quotes as the feed has outcomes under that market key |
| Props.PropBucketsKeys | api/props.js:55-56 | a market key appears in the output exactly when some bookmaker has a market with that key |
| Props.MaxOdds | api/props.js:105 | the best odds are quoted by some book, and no book quotes higher |
| Props.FinalizeLine | api/props.js:86-113 | a line is dropped exactly when a side is empty; otherwise it keeps its player and point, each fair probability is that side's weighted consensus rescaled by the sum of both, so they sum to 1 and lie strictly inside (0, 1), each EV is taken at the side's first price, and each side shows its best odds |
| Props.OverFavoured | api/props.js:86-113 | the over side gets the larger fair probability exactly when its weighted consensus is the larger |
| Props.Score | api/props.js:116-117 | a line's score is the larger of its two EVs: at least each of them, and equal to one |
| Props.FinalizedLines | api/props.js:85-114 | dropping one-sided lines never adds lines |
| Props.FinalizedLinesMembers | api/props.js:85-114 | a view survives exactly when it is the finalised form of some two-sided line |
| Props.FinalizeMarket | api/props.js:85-120 | a market keeps min(3, surviving lines) views, sorted by best EV descending, drawn from the surviving lines |
| Props.FinalizeMarketTies | api/props.js:115-120 | lines tied on their best EV keep their bucketing order: the kept lines with a given score are the first lines with that score, in order |
| Props.FinalizeMarketKeepsBest | api/props.js:115-120 | no dropped line has a better best-EV than a kept one |
| Props.OverlessMarketIsEmpty | api/props.js:87 | a market with no over quotes finalises to nothing |
| Props.OverlessOutcomes | api/props.js:60 | outcomes none of whose names contains "over" never fill an over side, so a Yes/No market ends up empty |
| Props.FinalizeAll | api/props.js:84-121 | every market key is finalised, and nothing else |
| Props.PropsMarkets | api/props.js:50-121 | for a feed of non-zero prices, the handler's markets are the finalised buckets, under exactly the feed's market keys |
| Sorting.SortDescSpec | api/props.js:115-119 | the sort returns a permutation of its input, in descending key order |
| Sorting.SortDescStable | api/props.js:115-119 | the sort is stable: for every key value, the elements with that key come out in their input order |
| Sorting.HeadIsMax | api/events.js:30-33 | no element has a larger key than the head of the sorted sequence |
| Sorting.SortHead | api/events.js:30-33 | the head of the sorted sequence is the first input element with the largest key |
| Sorting.TakeSorted | api/props.js:120 | the first n elements of a sorted sequence are sorted and are some of its elements |
| Script.Implied | script.js:6 | a non-zero price gives a probability strictly inside (0, 1) |
| Script.ImpliedAgrees | script.js:6 | the script's `implied` agrees with the server's `impliedProb` on every price |
| Script.Money | script.js:5 | the text starts with "+" exactly for positive prices and with "-" exactly for negative ones |
| Script.MoneyRoundTrip | script.js:5 | reading a price's text back gives the price |
| Script.Avg | script.js:7 | the average of nothing is 0 |
| Script.AvgBetween | script.js:7 | the average of values in [lo, hi] lies in [lo, hi] |
| Script.AvgConstant | script.js:7 | the average of one repeated value is that value |
| Script.Label | script.js:146-154 | an unknown market key is its own heading |
| Script.ShownLabelsDistinct | script.js:146-154 | the five shown markets are distinct and have distinct headings, each different from its key |
| Script.FindOutcome | script.js:82-83 | a found outcome is one of the market's outcomes and has the name |
| Script.FindOutcomeNone | script.js:82-83 | nothing is found exactly when no outcome has the name |
| Script.FindOutcomeFirst | script.js:95-96 | the found outcome is the first with the name |
| Script.SpreadPick | script.js:91-92 | a pick exists exactly when the market has outcomes, and it is one of them; SpreadPickIsClosest says which |
| Script.SpreadPickIsClosest | script.js:91-92 | the spread shown is the first outcome whose line is closest to a pick'em |
| Script.ShownBooks | script.js:77 | the table shows the first eight books, or all of them when there are fewer |
| Script.TableRows | script.js:76-101 | one row per shown book |
| Script.ApplyMarketKeeps | script.js:80-98 | a market's rule keeps the row's book and keeps its vig tag consistent: a tag exactly when a moneyline is shown, and `-vig` exactly when the two implied probabilities sum above 1 |
| Script.RowTagsMatch | script.js:79-99 | every row shows its book's title, has a vig tag exactly when it shows a moneyline, and says `-vig` exactly when the two prices' implied probabilities sum above 1 |
| Script.RowMoneylineIsLast | script.js:81-89 | a row's moneyline comes from the book's last `h2h` market that quotes both teams |
| Script.RowSpreadIsLast | script.js:90-93 | a row's spread comes from the book's last non-empty `spreads` market |
| Script.RowTotalIsLast | script.js:94-98 | a row's total comes from the book's last `totals` market with both an over and an under |
| Script.ApplyMoneyline | script.js:81-89 | a market sets the moneyline exactly when it is an `h2h` market listing both teams, to those two prices, and otherwise leaves it |
| Script.ApplySpread | script.js:90-93 | a market sets the spread exactly when it is a non-empty `spreads` market, to its pick, and otherwise leaves it |
| Script.ApplyTotal | script.js:94-98 | a market sets the total exactly when it is a `totals` market with an over and an under, to their points, and otherwise leaves it |
| Script.RowOf | script.js:77-99 | a book's row shows its title; its moneyline, spread and total come from the book's last market that fills each; its vig tag matches the moneyline |
| Script.FillRow | script.js:78-100 | the loop over a book's markets builds exactly the reference row |
| Script.RenderLines | script.js:75-101 | the loop over books builds exactly the reference table |
| Script.TableRowsShape | script.js:76-101 | the table has min(8, books) rows, row i shows book i's title, and each row's vig tag matches its moneyline (`-vig` exactly when the implied probabilities sum above 1) |
| Script.PlayerCell | script.js:125 | the cell shows the player when there is a non-empty one and "–" otherwise, so it is never empty |
| Script.RowsOf | script.js:123-128 | one row per outcome, in order, each copying the book title and the outcome's fields |
| Script.PushRows | script.js:123-128 | the loop appends the outcomes' rows to the group |
| Script.GroupBook | script.js:121-129 | the loop over a book's markets builds exactly the reference groups |
| Script.GroupProps | script.js:119-130 | the loop over bookmakers builds exactly the reference groups |
| Script.GroupMarketsKeys | script.js:121-122 | a group exists after a book exactly when it existed before or one of the book's markets has the key |
| Script.GroupMarketsRows | script.js:121-129 | a book adds to a group exactly the rows of its markets with that key, in order, after the earlier rows |
| Script.GroupedKeys | script.js:119-130 | a group exists exactly when some bookmaker has a market with the key |
| Script.GroupedRows | script.js:119-130 | a group holds the rows of every market with the key across the feed, in feed order, one row per outcome copying the book title and the outcome's fields |
| Script.First40 | script.js:139 | a section shows the first 40 rows, or all of them when there are fewer |
| Script.SectionsOf | script.js:134-142 | there are never more sections than listed markets |
| Script.SectionsOfShape | script.js:134-142 | every section is the section of a market key that has a group |
| Script.SectionsOfKeys | script.js:134-136 | a market gets a section exactly when it is listed and has a group |
| Script.SectionsInOrder | script.js:132-142 | sections follow the order of the list |
| Script.CollectSections | script.js:134-142 | the loop over the listed markets builds exactly the reference sections |
| Script.PropsPanel | script.js:113-143 | "No props yet." exactly when the event has no bookmakers, and a sections panel is never empty; PanelSections and PanelShape state the rest |
| Script.RenderPanel | script.js:113-144 | the loader builds exactly the reference panel |
| Script.PanelSections | script.js:117-143 | a section is shown exactly for each listed market that some book has; "No props data available." appears exactly when no book has a listed market |
| Script.ShownMarketsDistinct | script.js:132 | the five listed markets are distinct |
| Script.PanelShape | script.js:132-143 | only listed markets get sections, in list order, each under its heading, each holding the first at most 40 of that market's rows across the feed |

## Left out

- HTTP, `fetch`, the API key, the DOM and `innerHTML` are not modelled. Neither are the `400` ("Missing event id") and `500` error responses. The handlers are modelled from the parsed feed onwards, and the script from the fetched props onwards.
- The clock (`Date.now()`) is the parameter `now`. `new Date(commence_time).getTime()` is not modelled: the kickoff arrives as milliseconds since the epoch.
- Floating point is not modelled: the arithmetic is over exact reals. NaN and Infinity never arise, so a zero price, a zero total or a zero weight sum are preconditions or error results instead.
- Events.FinalizeTwoWay: it is modelled over the `{ p, odds, w }` records it reads (`x.p`). The buckets it would receive from `aggregateMarket` carry `prob`, not `p`. An empty side gives no result here, where the source computes with NaN.
- OddsMath.NoVig and OddsMath.WeightedAverage: `noVig` and `weightedAverage` are imported from the math module but not defined in it, so both are assumptions of this model. `noVig` is taken to be `removeVig` returning `[a, b]`. `weightedAverage` is taken to be Σ p·w / Σ w.
- OddsMath.ExpectedValue: the third argument (the stability) that both handlers pass is ignored, as the source's two-parameter function does.
- Props.FinalizeLine: the stability value the source computes per line is never used, because its only consumer ignores it, so the model does not compute it.
- Props.NormalizePlayer: whitespace is the ECMAScript white-space and line-terminator set.
- Props.Lower: lower-casing, used at api/props.js:60 and script.js:95-96, is ASCII only, with no Unicode case mapping. It decides `includes("over")`, `=== "over"` and `=== "under"` as full `toLowerCase` does, except where a non-ASCII capital lower-cases to an ASCII letter. The Kelvin sign (to "k") and the dotted capital I (to "i" and a combining dot) are such capitals; neither letter occurs in "over" or "under", so the three tests come out the same.
- Script.SpreadPickIsClosest: an outcome without a point is taken as |point| 0. The source's comparator yields NaN there, which the sort treats as "equal".
- The in-place reordering of `m.outcomes` done by the spreads sort is not modelled. Only its first element is used.
- The sort comparator of `selectBestPrice` has identical branches for every side; a single descending-odds sort models both.
- Keys inherited from `Object.prototype` (`"constructor"` and the like) are not modelled as present in `BOOK_WEIGHTS`, `label`'s table or the grouping objects.
- Props.KeyOf: a point of -0 and a point of 0 print identically in the key. The model keeps them as one real, so it does not distinguish them either.
- Props.FinalizeAll: the order in which `for ... in` visits market keys is not modelled. The result is a map.
- The props handler's `Array.isArray(data) ? data[0] : data` unwrap and the script's `wrap.props ?? wrap` unwrap are not modelled. The script's `loadAll` merge is not part of this model.
- The `|| []` defaults on missing arrays are modelled by empty sequences in the feed.
- Where the source has no `|| []` default, a missing array throws. The handler accesses are `bookmakers`, `b.markets` and `market.outcomes` at api/events.js:39, 41 and 46, where `game.bookmakers` is passed at lines 99-101 with no default; the throw gives a 500. The script accesses are `bm.markets` and `m.outcomes` at script.js:80, 82, 91, 95, 96, 121 and 123; the throw is an unhandled error in the browser. The feed type always holds a sequence, so the model cannot express that failure. A missing `props.bookmakers` does not throw: script.js:117 shows "No props yet.", modelled by Script.PropsPanel.
- Script.RenderLines and Script.RenderPanel: the rows and sections are kept as structured values, not HTML text. Prices stay integers, with `money` modelled separately by Script.Money. The vig cell is a tag (`-vig`, `fair`, none).
