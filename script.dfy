/**
 * The browser script (`script.js`) without the DOM: its price helpers, the rows of a game's
 * lines table and the player-props panel, as values. A cell that shows "–" is `None`.
 */
module Script {
  import opened Wrappers
  import opened Feed
  import OddsMath
  import Sums
  import Arith
  import Sorting
  import Props

  // ---------- Helpers ----------

  /** `implied`: the script's own copy of the implied probability of American odds. */
  function Implied(o: real): (p: real)
    ensures o != 0.0 ==> 0.0 < p < 1.0
  {
    if o > 0.0 then 100.0 / (o + 100.0) else -o / (-o + 100.0)
  }

  /** The script and the odds engine agree on every price. */
  lemma ImpliedAgrees(o: real)
    ensures Implied(o) == OddsMath.ImpliedProb(o)
  {
  }

  /** The decimal digits of `n`, most significant first, with no leading zero. */
  function Digits(n: nat): (s: string)
    ensures |s| >= 1 && AllDigits(s)
    ensures s[0] == '0' ==> n == 0
  {
    if n < 10 then [('0' as int + n) as char]
    else Digits(n / 10) + [('0' as int + n % 10) as char]
  }

  predicate AllDigits(s: string)
  {
    forall i :: 0 <= i < |s| ==> '0' <= s[i] <= '9'
  }

  /** The number a string of decimal digits spells. */
  function DigitsValue(s: string): nat
    requires AllDigits(s)
  {
    if s == [] then 0 else DigitsValue(s[..|s| - 1]) * 10 + (s[|s| - 1] as int - '0' as int)
  }

  /** Reading the digits back gives the number. */
  lemma {:induction false} DigitsRoundTrip(n: nat)
    ensures DigitsValue(Digits(n)) == n
  {
    if n >= 10 {
      DigitsRoundTrip(n / 10);
      var s := Digits(n);
      assert s[..|s| - 1] == Digits(n / 10);
    }
  }

  /** `String(o)` for an integer. */
  function IntText(o: int): string
  {
    if o < 0 then "-" + Digits(-o) else Digits(o)
  }

  /** `money`: a price with a `+` in front when it is positive, and as it is otherwise. */
  function Money(o: int): (s: string)
    ensures |s| >= 1
    ensures s[0] == '+' <==> o > 0
    ensures s[0] == '-' <==> o < 0
  {
    if o > 0 then "+" + IntText(o) else IntText(o)
  }

  /** Reads a price back from its text: an optional sign, then decimal digits. */
  function ReadMoney(s: string): Option<int>
  {
    var signed := s != [] && (s[0] == '+' || s[0] == '-');
    var body := if signed then s[1..] else s;
    if body == [] || !AllDigits(body) then None
    else if signed && s[0] == '-' then Some(0 - DigitsValue(body) as int)
    else Some(DigitsValue(body))
  }

  /** No price is lost in its text: reading `money(o)` back gives `o`. */
  lemma MoneyRoundTrip(o: int)
    ensures ReadMoney(Money(o)) == Some(o)
  {
    if o > 0 {
      PositiveRoundTrip(o);
    } else if o < 0 {
      NegativeRoundTrip(o);
    } else {
      DigitsRoundTrip(0);
      UnsignedRead(Digits(0));
    }
  }

  lemma PositiveRoundTrip(o: int)
    requires o > 0
    ensures ReadMoney(Money(o)) == Some(o)
  {
    var d := Digits(o);
    DigitsRoundTrip(o);
    SignedRead('+', d);
    assert Money(o) == ['+'] + d;
  }

  lemma NegativeRoundTrip(o: int)
    requires o < 0
    ensures ReadMoney(Money(o)) == Some(o)
  {
    var n: nat := -o;
    var d := Digits(n);
    DigitsRoundTrip(n);
    SignedRead('-', d);
    assert IntText(o) == "-" + d;
    assert Money(o) == ['-'] + d;
  }

  /** Digits without a sign read as their number. */
  lemma UnsignedRead(d: string)
    requires d != [] && AllDigits(d)
    ensures ReadMoney(d) == Some(DigitsValue(d))
  {
  }

  /** A sign followed by digits reads as the signed number. */
  lemma SignedRead(c: char, d: string)
    requires (c == '+' || c == '-') && d != [] && AllDigits(d)
    ensures ReadMoney([c] + d) == Some(if c == '-' then 0 - DigitsValue(d) as int else DigitsValue(d))
  {
    assert ([c] + d)[1..] == d;
  }

  /** `avg`: the mean of the values, and 0 for none. */
  function Avg(a: seq<real>): (r: real)
    ensures a == [] ==> r == 0.0
  {
    if a == [] then 0.0 else Sums.Sum(a) / |a| as real
  }

  /** The mean lies between the smallest and the largest bound of the values. */
  lemma AvgBetween(a: seq<real>, lo: real, hi: real)
    requires a != [] && forall i :: 0 <= i < |a| ==> lo <= a[i] <= hi
    ensures lo <= Avg(a) <= hi
  {
    Sums.SumBounds(a, lo, hi);
    Arith.DivBounds(Sums.Sum(a), |a| as real, lo, hi);
  }

  /** The mean of one repeated value is that value. */
  lemma AvgConstant(a: seq<real>, c: real)
    requires a != [] && forall i :: 0 <= i < |a| ==> a[i] == c
    ensures Avg(a) == c
  {
    AvgBetween(a, c, c);
  }

  /** The headings of the known prop markets. */
  const Labels: map<string, string> := map[
    "player_anytime_td" := "Anytime TD",
    "player_pass_tds" := "Pass TDs (O/U)",
    "player_pass_yds" := "Pass Yards (O/U)",
    "player_rush_yds" := "Rush Yards (O/U)",
    "player_receptions" := "Receptions (O/U)"]

  /** `label`: a known market's heading, and the key itself for any other market. */
  function Label(k: string): (l: string)
    ensures k !in Labels ==> l == k
  {
    if k in Labels then Labels[k] else k
  }

  /** The prop markets the panel shows, in the order it shows them. */
  const ShownMarkets: seq<string> :=
    ["player_anytime_td", "player_pass_tds", "player_pass_yds", "player_rush_yds", "player_receptions"]

  /** Every shown market has a heading of its own that differs from its key. */
  lemma ShownLabelsDistinct()
    ensures forall k :: k in ShownMarkets ==> k in Labels && Label(k) != k
    ensures forall i, j :: 0 <= i < j < |ShownMarkets| ==>
      ShownMarkets[i] != ShownMarkets[j] && Label(ShownMarkets[i]) != Label(ShownMarkets[j])
  {
    assert "Anytime TD"[0] != "player_anytime_td"[0];
    assert "Pass TDs (O/U)"[0] != "player_pass_tds"[0];
    assert "Pass Yards (O/U)"[0] != "player_pass_yds"[0];
    assert "Rush Yards (O/U)"[0] != "player_rush_yds"[0];
    assert "Receptions (O/U)"[0] != "player_receptions"[0];
    assert "player_anytime_td"[7] != "player_pass_tds"[7];
    assert "player_pass_tds"[12] != "player_pass_yds"[12];
    assert "player_anytime_td"[7] != "player_rush_yds"[7] && "player_pass_tds"[7] != "player_rush_yds"[7];
    assert "player_anytime_td"[7] != "player_receptions"[7] && "player_pass_tds"[7] != "player_receptions"[7];
    assert "player_pass_yds"[7] != "player_rush_yds"[7] && "player_pass_yds"[7] != "player_receptions"[7];
    assert "player_rush_yds"[8] != "player_receptions"[8];
    assert "Anytime TD"[0] != "Pass TDs (O/U)"[0] && "Anytime TD"[0] != "Pass Yards (O/U)"[0];
    assert "Anytime TD"[0] != "Rush Yards (O/U)"[0] && "Anytime TD"[0] != "Receptions (O/U)"[0];
    assert "Pass TDs (O/U)"[5] != "Pass Yards (O/U)"[5];
    assert "Pass TDs (O/U)"[0] != "Rush Yards (O/U)"[0] && "Pass TDs (O/U)"[0] != "Receptions (O/U)"[0];
    assert "Pass Yards (O/U)"[0] != "Rush Yards (O/U)"[0] && "Pass Yards (O/U)"[0] != "Receptions (O/U)"[0];
    assert "Rush Yards (O/U)"[1] != "Receptions (O/U)"[1];
  }

  // ---------- The game-lines table ----------

  /** The marker of a moneyline row: none yet, `-vig` or `fair`. */
  datatype VigTag = NoTag | MinusVig | Fair

  /** `{ book, h2h, spread, total, ev }`: the moneyline prices, the spread outcome and the total points. */
  datatype Row = Row(book: string, h2h: Option<(int, int)>, spread: Option<Outcome>,
                     total: Option<(Option<real>, Option<real>)>, ev: VigTag)

  /** The outcome's name is `name`, compared as it is or, when `caseless`, after `toLowerCase`. */
  predicate Matches(o: Outcome, name: string, caseless: bool)
  {
    (if caseless then Props.Lower(o.name) else o.name) == name
  }

  /** `outcomes.find(...)` for a name. */
  function FindOutcome(os: seq<Outcome>, name: string, caseless: bool): (r: Option<Outcome>)
    ensures r.Some? ==> r.value in os && Matches(r.value, name, caseless)
  {
    if os == [] then None
    else if Matches(os[0], name, caseless) then Some(os[0])
    else FindOutcome(os[1..], name, caseless)
  }

  /** `find` comes back empty exactly when no outcome has the name. */
  lemma {:induction false} FindOutcomeNone(os: seq<Outcome>, name: string, caseless: bool)
    ensures FindOutcome(os, name, caseless).None? <==> forall i :: 0 <= i < |os| ==> !Matches(os[i], name, caseless)
  {
    if os != [] && !Matches(os[0], name, caseless) {
      FindOutcomeNone(os[1..], name, caseless);
      assert forall i :: 0 < i < |os| ==> os[i] == os[1..][i - 1];
    }
  }

  /** `find` returns the first outcome with the name. */
  lemma {:induction false} FindOutcomeFirst(os: seq<Outcome>, name: string, caseless: bool) returns (i: nat)
    requires FindOutcome(os, name, caseless).Some?
    ensures i < |os| && os[i] == FindOutcome(os, name, caseless).value
    ensures forall j :: 0 <= j < i ==> !Matches(os[j], name, caseless)
  {
    if Matches(os[0], name, caseless) {
      i := 0;
    } else {
      var k := FindOutcomeFirst(os[1..], name, caseless);
      i := k + 1;
      assert forall j :: 0 < j < i ==> os[j] == os[1..][j - 1];
    }
  }

  /** The moneyline rule: both teams' outcomes found, their prices shown and the book's vig flagged. */
  function WithMoneyline(rec: Row, os: seq<Outcome>, away: string, home: string): Row
  {
    var a := FindOutcome(os, away, false);
    var h := FindOutcome(os, home, false);
    if a.Some? && h.Some? then
      rec.(h2h := Some((a.value.price, h.value.price)),
           ev := if Implied(a.value.price as real) + Implied(h.value.price as real) > 1.0 then MinusVig else Fair)
    else rec
  }

  function AbsPoint(o: Outcome): real
  {
    if o.point.Some? then OddsMath.Abs(o.point.value) else 0.0
  }

  /** Sorting by `-|point|` descending is the script's ascending sort by `|point|`. */
  function SpreadKey(o: Outcome): real
  {
    -AbsPoint(o)
  }

  /** `m.outcomes.sort((a, b) => |a.point| - |b.point|)[0]` */
  function SpreadPick(os: seq<Outcome>): (pick: Option<Outcome>)
    ensures pick.None? <==> os == []
    ensures pick.Some? ==> pick.value in os
  {
    if os == [] then None
    else
      Sorting.SortDescSpec(os, SpreadKey);
      assert Sorting.SortDesc(os, SpreadKey)[0] in multiset(Sorting.SortDesc(os, SpreadKey));
      Some(Sorting.SortDesc(os, SpreadKey)[0])
  }

  /** The spread shown is the first of the outcomes whose line is closest to a pick'em. */
  lemma SpreadPickIsClosest(os: seq<Outcome>) returns (i: nat)
    requires os != []
    ensures i < |os| && SpreadPick(os) == Some(os[i])
    ensures forall j :: 0 <= j < |os| ==> AbsPoint(os[i]) <= AbsPoint(os[j])
    ensures forall j :: 0 <= j < i ==> AbsPoint(os[i]) < AbsPoint(os[j])
  {
    i := Sorting.SortHead(os, SpreadKey);
  }

  function WithSpread(rec: Row, os: seq<Outcome>): Row
  {
    match SpreadPick(os)
    case None => rec
    case Some(best) => rec.(spread := Some(best))
  }

  /** The totals rule: the first "over" and the first "under", in any case, give the points shown. */
  function WithTotal(rec: Row, os: seq<Outcome>): Row
  {
    var o := FindOutcome(os, "over", true);
    var u := FindOutcome(os, "under", true);
    if o.Some? && u.Some? then rec.(total := Some((o.value.point, u.value.point))) else rec
  }

  /** One market of a book applied to its row: the rule for its key, if it has one. */
  function ApplyMarket(rec: Row, m: Market, away: string, home: string): Row
  {
    var r1 := if m.key == "h2h" then WithMoneyline(rec, m.outcomes, away, home) else rec;
    var r2 := if m.key == "spreads" then WithSpread(r1, m.outcomes) else r1;
    if m.key == "totals" then WithTotal(r2, m.outcomes) else r2
  }

  function BlankRow(book: string): Row
  {
    Row(book, None, None, None, NoTag)
  }

  /** The row of book `bm` once its first `n` markets have been applied. */
  function RowUpTo(bm: Bookmaker, n: nat, away: string, home: string): Row
    requires n <= |bm.markets|
  {
    if n == 0 then BlankRow(bm.title) else ApplyMarket(RowUpTo(bm, n - 1, away, home), bm.markets[n - 1], away, home)
  }

  /** The row of book `bm`: its title, and for each cell the last market of the book that fills it. */
  function RowOf(bm: Bookmaker, away: string, home: string): (row: Row)
    ensures row.book == bm.title && TagMatches(row)
    ensures row.h2h == LastMoneyline(bm.markets, |bm.markets|, away, home)
    ensures row.spread == LastSpread(bm.markets, |bm.markets|)
    ensures row.total == LastTotal(bm.markets, |bm.markets|)
  {
    RowTagsMatch(bm, |bm.markets|, away, home);
    RowMoneylineIsLast(bm, |bm.markets|, away, home);
    RowSpreadIsLast(bm, |bm.markets|, away, home);
    RowTotalIsLast(bm, |bm.markets|, away, home);
    RowUpTo(bm, |bm.markets|, away, home)
  }

  /** `(game.bookmakers || []).slice(0, 8)` */
  function ShownBooks(game: Game): (books: seq<Bookmaker>)
    ensures |books| <= 8 && |books| <= |game.bookmakers| && books == game.bookmakers[..|books|]
    ensures |books| == 8 || books == game.bookmakers
  {
    if |game.bookmakers| <= 8 then game.bookmakers else game.bookmakers[..8]
  }

  /** The table's rows: one per shown book, in feed order. */
  function TableRows(game: Game): (rows: seq<Row>)
    ensures |rows| == |ShownBooks(game)|
  {
    var books := ShownBooks(game);
    seq(|books|, i requires 0 <= i < |books| => RowOf(books[i], game.awayTeam, game.homeTeam))
  }

  /** The marker shows exactly when the moneyline does, and says `-vig` exactly when the two implied probabilities sum above one. */
  predicate TagMatches(rec: Row)
  {
    (rec.h2h.None? <==> rec.ev == NoTag)
    && (rec.h2h.Some? ==>
          (rec.ev == MinusVig <==> Implied(rec.h2h.value.0 as real) + Implied(rec.h2h.value.1 as real) > 1.0))
  }

  /** Applying a market keeps the book's name and the marker's agreement with the moneyline. */
  lemma ApplyMarketKeeps(rec: Row, m: Market, away: string, home: string)
    requires TagMatches(rec)
    ensures TagMatches(ApplyMarket(rec, m, away, home))
    ensures ApplyMarket(rec, m, away, home).book == rec.book
  {
  }

  /** Every row carries its book's title and a marker that agrees with its moneyline. */
  lemma {:induction false} RowTagsMatch(bm: Bookmaker, n: nat, away: string, home: string)
    requires n <= |bm.markets|
    ensures TagMatches(RowUpTo(bm, n, away, home)) && RowUpTo(bm, n, away, home).book == bm.title
  {
    if n > 0 {
      RowTagsMatch(bm, n - 1, away, home);
      ApplyMarketKeeps(RowUpTo(bm, n - 1, away, home), bm.markets[n - 1], away, home);
    }
  }

  /** Both teams are listed in market `m`, a moneyline market. */
  predicate HasMoneyline(m: Market, away: string, home: string)
  {
    m.key == "h2h" && FindOutcome(m.outcomes, away, false).Some? && FindOutcome(m.outcomes, home, false).Some?
  }

  /** Reference definition: the prices of the last of the first `n` markets that lists both teams. */
  function LastMoneyline(ms: seq<Market>, n: nat, away: string, home: string): Option<(int, int)>
    requires n <= |ms|
  {
    if n == 0 then None
    else if HasMoneyline(ms[n - 1], away, home) then
      Some((FindOutcome(ms[n - 1].outcomes, away, false).value.price,
            FindOutcome(ms[n - 1].outcomes, home, false).value.price))
    else LastMoneyline(ms, n - 1, away, home)
  }

  /** The moneyline shown is that of the book's last moneyline market listing both teams. */
  lemma {:induction false} RowMoneylineIsLast(bm: Bookmaker, n: nat, away: string, home: string)
    requires n <= |bm.markets|
    ensures RowUpTo(bm, n, away, home).h2h == LastMoneyline(bm.markets, n, away, home)
  {
    if n > 0 {
      RowMoneylineIsLast(bm, n - 1, away, home);
      ApplyMoneyline(RowUpTo(bm, n - 1, away, home), bm.markets[n - 1], away, home);
    }
  }

  /** Reference definition: the pick of the last of the first `n` markets that is a non-empty spreads market. */
  function LastSpread(ms: seq<Market>, n: nat): Option<Outcome>
    requires n <= |ms|
  {
    if n == 0 then None
    else if ms[n - 1].key == "spreads" && ms[n - 1].outcomes != [] then SpreadPick(ms[n - 1].outcomes)
    else LastSpread(ms, n - 1)
  }

  /** The spread shown is the pick of the book's last non-empty spreads market. */
  lemma {:induction false} RowSpreadIsLast(bm: Bookmaker, n: nat, away: string, home: string)
    requires n <= |bm.markets|
    ensures RowUpTo(bm, n, away, home).spread == LastSpread(bm.markets, n)
  {
    if n > 0 {
      RowSpreadIsLast(bm, n - 1, away, home);
      ApplySpread(RowUpTo(bm, n - 1, away, home), bm.markets[n - 1], away, home);
    }
  }

  /** Both an over and an under are listed in market `m`, a totals market. */
  predicate HasTotal(m: Market)
  {
    m.key == "totals" && FindOutcome(m.outcomes, "over", true).Some? && FindOutcome(m.outcomes, "under", true).Some?
  }

  /** Reference definition: the points of the last of the first `n` totals markets listing an over and an under. */
  function LastTotal(ms: seq<Market>, n: nat): Option<(Option<real>, Option<real>)>
    requires n <= |ms|
  {
    if n == 0 then None
    else if HasTotal(ms[n - 1]) then
      Some((FindOutcome(ms[n - 1].outcomes, "over", true).value.point,
            FindOutcome(ms[n - 1].outcomes, "under", true).value.point))
    else LastTotal(ms, n - 1)
  }

  /** The total shown is that of the book's last totals market listing an over and an under. */
  lemma {:induction false} RowTotalIsLast(bm: Bookmaker, n: nat, away: string, home: string)
    requires n <= |bm.markets|
    ensures RowUpTo(bm, n, away, home).total == LastTotal(bm.markets, n)
  {
    if n > 0 {
      RowTotalIsLast(bm, n - 1, away, home);
      ApplyTotal(RowUpTo(bm, n - 1, away, home), bm.markets[n - 1], away, home);
    }
  }

  /** A market changes the moneyline only when it is a moneyline market listing both teams. */
  lemma ApplyMoneyline(rec: Row, m: Market, away: string, home: string)
    ensures ApplyMarket(rec, m, away, home).h2h ==
      if HasMoneyline(m, away, home) then
        Some((FindOutcome(m.outcomes, away, false).value.price, FindOutcome(m.outcomes, home, false).value.price))
      else rec.h2h
  {
  }

  /** A market changes the spread only when it is a non-empty spreads market. */
  lemma ApplySpread(rec: Row, m: Market, away: string, home: string)
    ensures ApplyMarket(rec, m, away, home).spread ==
      if m.key == "spreads" && m.outcomes != [] then SpreadPick(m.outcomes) else rec.spread
  {
  }

  /** A market changes the total only when it is a totals market listing an over and an under. */
  lemma ApplyTotal(rec: Row, m: Market, away: string, home: string)
    ensures ApplyMarket(rec, m, away, home).total ==
      if HasTotal(m) then
        Some((FindOutcome(m.outcomes, "over", true).value.point, FindOutcome(m.outcomes, "under", true).value.point))
      else rec.total
  {
  }

  /** The inner `forEach` of `renderLines`: one book's markets applied to a fresh row. */
  method FillRow(bm: Bookmaker, away: string, home: string) returns (rec: Row)
    ensures rec == RowOf(bm, away, home)
  {
    rec := BlankRow(bm.title);
    var j := 0;
    while j < |bm.markets|
      invariant 0 <= j <= |bm.markets|
      invariant rec == RowUpTo(bm, j, away, home)
    {
      var m := bm.markets[j];
      if m.key == "h2h" {
        var a := FindOutcome(m.outcomes, away, false);
        var h := FindOutcome(m.outcomes, home, false);
        if a.Some? && h.Some? {
          rec := rec.(h2h := Some((a.value.price, h.value.price)));
          var evv := Implied(a.value.price as real) + Implied(h.value.price as real);
          rec := rec.(ev := if evv > 1.0 then MinusVig else Fair);
        }
      }
      if m.key == "spreads" {
        var best := SpreadPick(m.outcomes);
        if best.Some? {
          rec := rec.(spread := best);
        }
      }
      if m.key == "totals" {
        var o := FindOutcome(m.outcomes, "over", true);
        var u := FindOutcome(m.outcomes, "under", true);
        if o.Some? && u.Some? {
          rec := rec.(total := Some((o.value.point, u.value.point)));
        }
      }
      j := j + 1;
    }
  }

  /** `renderLines` without the HTML: the table's rows, one per shown book. */
  method RenderLines(game: Game) returns (rows: seq<Row>)
    ensures rows == TableRows(game)
  {
    rows := [];
    var books := if |game.bookmakers| > 8 then game.bookmakers[..8] else game.bookmakers;
    var i := 0;
    while i < |books|
      invariant 0 <= i <= |books| && books == ShownBooks(game)
      invariant |rows| == i
      invariant forall k :: 0 <= k < i ==> rows[k] == RowOf(books[k], game.awayTeam, game.homeTeam)
    {
      var rec := FillRow(books[i], game.awayTeam, game.homeTeam);
      rows := rows + [rec];
      i := i + 1;
    }
  }

  /** At most eight rows, each for the book in its place, each with a marker that agrees with its moneyline. */
  lemma TableRowsShape(game: Game)
    ensures |TableRows(game)| == if |game.bookmakers| <= 8 then |game.bookmakers| else 8
    ensures forall i :: 0 <= i < |TableRows(game)| ==>
      TableRows(game)[i].book == game.bookmakers[i].title && TagMatches(TableRows(game)[i])
  {
    var books := ShownBooks(game);
    forall i | 0 <= i < |books|
      ensures TableRows(game)[i].book == game.bookmakers[i].title && TagMatches(TableRows(game)[i])
    {
      RowTagsMatch(books[i], |books[i].markets|, game.awayTeam, game.homeTeam);
      assert books[i] == game.bookmakers[i];
    }
  }

  // ---------- The player-props panel ----------

  /** One row of a props table: `{ book, player, name, point, price }`. */
  datatype PropRow = PropRow(book: string, player: string, name: string, point: Option<real>, price: int)

  /** `o.description || "–"`: an absent or empty description shows a dash. */
  function PlayerCell(d: Option<string>): (cell: string)
    ensures d.Some? && d.value != [] ==> cell == d.value
    ensures d.None? || d.value == [] ==> cell == "–"
    ensures |cell| >= 1
  {
    if d.Some? && d.value != [] then d.value else "–"
  }

  function PropRowOf(title: string, o: Outcome): PropRow
  {
    PropRow(title, PlayerCell(o.description), o.name, o.point, o.price)
  }

  /** The rows of one market's outcomes, in order. */
  function RowsOf(title: string, os: seq<Outcome>): (rs: seq<PropRow>)
    ensures |rs| == |os| && forall i :: 0 <= i < |os| ==> rs[i] == PropRowOf(title, os[i])
  {
    seq(|os|, i requires 0 <= i < |os| => PropRowOf(title, os[i]))
  }

  type Groups = map<string, seq<PropRow>>

  /** The rows grouped under `key` so far, none when it has no group. */
  function GroupOf(groups: Groups, key: string): seq<PropRow>
  {
    if key in groups then groups[key] else []
  }

  /** One market: `groups[m.key]` opened if need be, then every outcome pushed. */
  function GroupMarket(groups: Groups, title: string, m: Market): Groups
  {
    groups[m.key := GroupOf(groups, m.key) + RowsOf(title, m.outcomes)]
  }

  function GroupMarkets(groups: Groups, title: string, ms: seq<Market>, n: nat): Groups
    requires n <= |ms|
  {
    if n == 0 then groups else GroupMarket(GroupMarkets(groups, title, ms, n - 1), title, ms[n - 1])
  }

  /** `groups` once the first `n` books have been visited. */
  function GroupsUpTo(bms: seq<Bookmaker>, n: nat): Groups
    requires n <= |bms|
  {
    if n == 0 then map[]
    else GroupMarkets(GroupsUpTo(bms, n - 1), bms[n - 1].title, bms[n - 1].markets, |bms[n - 1].markets|)
  }

  function Grouped(bms: seq<Bookmaker>): Groups
  {
    GroupsUpTo(bms, |bms|)
  }

  /** The innermost `forEach`: every outcome's row pushed onto a group. */
  method PushRows(group: seq<PropRow>, title: string, os: seq<Outcome>) returns (grown: seq<PropRow>)
    ensures grown == group + RowsOf(title, os)
  {
    grown := group;
    var k := 0;
    while k < |os|
      invariant 0 <= k <= |os|
      invariant grown == group + RowsOf(title, os[..k])
    {
      grown := grown + [PropRowOf(title, os[k])];
      k := k + 1;
    }
    assert os[..k] == os;
  }

  /** The middle `forEach`: one book's markets grouped by key. */
  method GroupBook(groups: Groups, bm: Bookmaker) returns (next: Groups)
    ensures next == GroupMarkets(groups, bm.title, bm.markets, |bm.markets|)
  {
    next := groups;
    var j := 0;
    while j < |bm.markets|
      invariant 0 <= j <= |bm.markets|
      invariant next == GroupMarkets(groups, bm.title, bm.markets, j)
    {
      var m := bm.markets[j];
      ghost var before := next;
      if m.key !in next {
        next := next[m.key := []];
      }
      var grown := PushRows(next[m.key], bm.title, m.outcomes);
      assert next[m.key := grown] == before[m.key := grown];
      next := next[m.key := grown];
      j := j + 1;
    }
  }

  /** The grouping loop of `loadProps`. */
  method GroupProps(bookmakers: seq<Bookmaker>) returns (groups: Groups)
    ensures groups == Grouped(bookmakers)
  {
    groups := map[];
    var i := 0;
    while i < |bookmakers|
      invariant 0 <= i <= |bookmakers|
      invariant groups == GroupsUpTo(bookmakers, i)
    {
      groups := GroupBook(groups, bookmakers[i]);
      i := i + 1;
    }
  }

  /** Reference definition: the rows of the first `n` markets of one book that have key `key`. */
  function MarketRows(title: string, ms: seq<Market>, n: nat, key: string): seq<PropRow>
    requires n <= |ms|
  {
    if n == 0 then [] else MarketRows(title, ms, n - 1, key) + KeyRows(title, ms[n - 1], key)
  }

  /** The rows of market `m` if it has key `key`, and none otherwise. */
  function KeyRows(title: string, m: Market, key: string): seq<PropRow>
  {
    if m.key == key then RowsOf(title, m.outcomes) else []
  }

  /** Reference definition: the rows of every market with key `key` over the first `n` books, in feed order. */
  function FeedRows(bms: seq<Bookmaker>, n: nat, key: string): seq<PropRow>
    requires n <= |bms|
  {
    if n == 0 then []
    else FeedRows(bms, n - 1, key) + MarketRows(bms[n - 1].title, bms[n - 1].markets, |bms[n - 1].markets|, key)
  }

  /** Grouping a book's markets opens a group for each of their keys. */
  lemma {:induction false} GroupMarketsKeys(groups: Groups, title: string, ms: seq<Market>, n: nat, key: string)
    requires n <= |ms|
    ensures key in GroupMarkets(groups, title, ms, n) <==> key in groups || exists j :: 0 <= j < n && ms[j].key == key
  {
    if n > 0 {
      var before := GroupMarkets(groups, title, ms, n - 1);
      GroupMarketsKeys(groups, title, ms, n - 1, key);
      assert GroupMarkets(groups, title, ms, n).Keys == before.Keys + {ms[n - 1].key};
    }
  }

  /** Grouping a book's markets appends the rows of those with the key, in market order. */
  lemma {:induction false} GroupMarketsRows(groups: Groups, title: string, ms: seq<Market>, n: nat, key: string)
    requires n <= |ms|
    ensures GroupOf(GroupMarkets(groups, title, ms, n), key) == GroupOf(groups, key) + MarketRows(title, ms, n, key)
  {
    if n > 0 {
      GroupMarketsRows(groups, title, ms, n - 1, key);
      var before := GroupMarkets(groups, title, ms, n - 1);
      var start, earlier, last := GroupOf(groups, key), MarketRows(title, ms, n - 1, key), KeyRows(title, ms[n - 1], key);
      GroupMarketRows(before, title, ms[n - 1], key);
      assert GroupOf(GroupMarkets(groups, title, ms, n), key) == GroupOf(before, key) + last;
      assert MarketRows(title, ms, n, key) == earlier + last;
      Concat3(start, earlier, last);
    }
  }

  /** Grouping one market appends its rows to its key's group and leaves the other groups alone. */
  lemma GroupMarketRows(groups: Groups, title: string, m: Market, key: string)
    ensures GroupOf(GroupMarket(groups, title, m), key) == GroupOf(groups, key) + KeyRows(title, m, key)
  {
    if m.key != key {
      assert GroupOf(groups, key) + [] == GroupOf(groups, key);
    }
  }

  lemma Concat3<T>(a: seq<T>, b: seq<T>, c: seq<T>)
    ensures (a + b) + c == a + (b + c)
  {
  }

  /** A group exists exactly for the keys that some book's market has, even one without outcomes. */
  lemma {:induction false} GroupedKeys(bms: seq<Bookmaker>, n: nat, key: string)
    requires n <= |bms|
    ensures key in GroupsUpTo(bms, n) <==>
      exists i, j :: 0 <= i < n && 0 <= j < |bms[i].markets| && bms[i].markets[j].key == key
  {
    if n > 0 {
      GroupedKeys(bms, n - 1, key);
      var b := bms[n - 1];
      GroupMarketsKeys(GroupsUpTo(bms, n - 1), b.title, b.markets, |b.markets|, key);
    }
  }

  /** A group holds one row per outcome of the markets with its key, book after book and market after market. */
  lemma {:induction false} GroupedRows(bms: seq<Bookmaker>, n: nat, key: string)
    requires n <= |bms|
    ensures GroupOf(GroupsUpTo(bms, n), key) == FeedRows(bms, n, key)
  {
    if n > 0 {
      GroupedRows(bms, n - 1, key);
      var b := bms[n - 1];
      GroupMarketsRows(GroupsUpTo(bms, n - 1), b.title, b.markets, |b.markets|, key);
    }
  }

  /** One section of the panel: a shown market's heading and at most its first 40 rows. */
  datatype Section = Section(key: string, title: string, rows: seq<PropRow>)

  /** The panel: "No props yet." without bookmakers, "No props data available." without sections. */
  datatype Panel = NoPropsYet | NoPropsData | Sections(sections: seq<Section>)

  /** `arr.slice(0, 40)` */
  function First40(rows: seq<PropRow>): (first: seq<PropRow>)
    ensures |first| <= 40 && |first| <= |rows| && first == rows[..|first|]
    ensures |first| == 40 || first == rows
  {
    if |rows| <= 40 then rows else rows[..40]
  }

  function SectionOf(groups: Groups, k: string): Section
    requires k in groups
  {
    Section(k, Label(k), First40(groups[k]))
  }

  /** The sections for the keys of `order` that have a group, in that order. */
  function SectionsOf(groups: Groups, order: seq<string>): (secs: seq<Section>)
    ensures |secs| <= |order|
  {
    if order == [] then []
    else if order[0] in groups then [SectionOf(groups, order[0])] + SectionsOf(groups, order[1..])
    else SectionsOf(groups, order[1..])
  }

  /** Every section is that of a key with a group: its heading and its group's first rows. */
  lemma {:induction false} SectionsOfShape(groups: Groups, order: seq<string>)
    ensures forall i :: 0 <= i < |SectionsOf(groups, order)| ==>
      SectionsOf(groups, order)[i].key in groups && SectionsOf(groups, order)[i] == SectionOf(groups, SectionsOf(groups, order)[i].key)
  {
    if order != [] {
      SectionsOfShape(groups, order[1..]);
      var rest := SectionsOf(groups, order[1..]);
      var secs := SectionsOf(groups, order);
      if order[0] in groups {
        assert secs == [SectionOf(groups, order[0])] + rest;
        forall i | 0 <= i < |secs| ensures secs[i].key in groups && secs[i] == SectionOf(groups, secs[i].key) {
          if i > 0 {
            assert secs[i] == rest[i - 1];
          }
        }
      } else {
        assert secs == rest;
      }
    }
  }

  /** Some section is for key `k`. */
  predicate HasSection(secs: seq<Section>, k: string)
  {
    exists i :: 0 <= i < |secs| && secs[i].key == k
  }

  /** A key has a section exactly when it is in the order and has a group. */
  lemma {:induction false} SectionsOfKeys(groups: Groups, order: seq<string>, k: string)
    ensures HasSection(SectionsOf(groups, order), k) <==> k in order && k in groups
  {
    if order != [] {
      SectionsOfKeys(groups, order[1..], k);
      var secs := SectionsOf(groups, order);
      var rest := SectionsOf(groups, order[1..]);
      assert k in order <==> k == order[0] || k in order[1..] by {
        assert order == [order[0]] + order[1..];
      }
      if order[0] in groups {
        assert secs == [SectionOf(groups, order[0])] + rest;
        assert forall i :: 0 < i < |secs| ==> secs[i] == rest[i - 1];
        if k == order[0] {
          assert secs[0].key == k;
        } else if HasSection(rest, k) {
          var i :| 0 <= i < |rest| && rest[i].key == k;
          assert secs[i + 1].key == k;
        }
      } else {
        assert secs == rest;
      }
    }
  }

  /** No key is listed twice. */
  predicate Distinct(order: seq<string>)
  {
    forall i, j :: 0 <= i < j < |order| ==> order[i] != order[j]
  }

  /** The first position of `k` in `order`. */
  function PositionIn(order: seq<string>, k: string): (p: nat)
    requires k in order
    ensures p < |order| && order[p] == k
  {
    if order[0] == k then 0 else 1 + PositionIn(order[1..], k)
  }

  /** The sections follow the order of a list without repeated keys. */
  lemma {:induction false} SectionsInOrder(groups: Groups, order: seq<string>)
    requires Distinct(order)
    ensures forall i :: 0 <= i < |SectionsOf(groups, order)| ==> SectionsOf(groups, order)[i].key in order
    ensures forall i, j :: 0 <= i < j < |SectionsOf(groups, order)| ==>
      PositionIn(order, SectionsOf(groups, order)[i].key) < PositionIn(order, SectionsOf(groups, order)[j].key)
  {
    if order != [] {
      assert Distinct(order[1..]) by {
        assert forall i :: 0 <= i < |order[1..]| ==> order[1..][i] == order[i + 1];
      }
      SectionsInOrder(groups, order[1..]);
      var secs := SectionsOf(groups, order);
      var rest := SectionsOf(groups, order[1..]);
      forall i | 0 <= i < |rest|
        ensures rest[i].key in order && rest[i].key != order[0]
        ensures PositionIn(order, rest[i].key) == 1 + PositionIn(order[1..], rest[i].key)
      {
        var p := PositionIn(order[1..], rest[i].key);
        assert order[p + 1] == rest[i].key;
      }
      if order[0] in groups {
        assert secs == [SectionOf(groups, order[0])] + rest;
        assert forall i :: 0 < i < |secs| ==> secs[i] == rest[i - 1];
        forall i, j | 0 <= i < j < |secs|
          ensures PositionIn(order, secs[i].key) < PositionIn(order, secs[j].key)
        {
          if i == 0 {
            assert secs[j] == rest[j - 1];
          } else {
            assert secs[i] == rest[i - 1] && secs[j] == rest[j - 1];
          }
        }
      }
    }
  }

  /** The loop over a list of keys: a section for each key that has a group. */
  method CollectSections(groups: Groups, order: seq<string>) returns (secs: seq<Section>)
    ensures secs == SectionsOf(groups, order)
  {
    secs := [];
    var i := 0;
    while i < |order|
      invariant 0 <= i <= |order|
      invariant secs + SectionsOf(groups, order[i..]) == SectionsOf(groups, order)
    {
      var k := order[i];
      assert order[i..][1..] == order[i + 1..];
      if k in groups {
        secs := secs + [SectionOf(groups, k)];
      }
      i := i + 1;
    }
  }

  /** `loadProps` without the fetch: the panel for the event's bookmakers, when it has any. */
  function PropsPanel(bookmakers: Option<seq<Bookmaker>>): (panel: Panel)
    ensures panel == NoPropsYet <==> bookmakers.None?
    ensures panel.Sections? ==> panel.sections != []
  {
    match bookmakers
    case None => NoPropsYet
    case Some(bms) =>
      var secs := SectionsOf(Grouped(bms), ShownMarkets);
      if secs == [] then NoPropsData else Sections(secs)
  }

  /** `loadProps` after the fetch: group the outcomes, then lay out the shown markets. */
  method RenderPanel(bookmakers: Option<seq<Bookmaker>>) returns (panel: Panel)
    ensures panel == PropsPanel(bookmakers)
  {
    if bookmakers.None? {
      return NoPropsYet;
    }
    var groups := GroupProps(bookmakers.value);
    var secs := CollectSections(groups, ShownMarkets);
    panel := if secs == [] then NoPropsData else Sections(secs);
  }

  /**
   * The panel says "No props data available." exactly when no book has a market of a shown key,
   * and otherwise shows a section for each shown key that some book has.
   */
  lemma PanelSections(bms: seq<Bookmaker>, k: string)
    ensures PropsPanel(Some(bms)).Sections? ==>
      (HasSection(PropsPanel(Some(bms)).sections, k) <==>
        k in ShownMarkets && exists i, j :: 0 <= i < |bms| && 0 <= j < |bms[i].markets| && bms[i].markets[j].key == k)
    ensures PropsPanel(Some(bms)) == NoPropsData ==>
      !(k in ShownMarkets && exists i, j :: 0 <= i < |bms| && 0 <= j < |bms[i].markets| && bms[i].markets[j].key == k)
  {
    SectionsOfKeys(Grouped(bms), ShownMarkets, k);
    GroupedKeys(bms, |bms|, k);
  }

  /** The shown markets are five distinct keys. */
  lemma ShownMarketsDistinct()
    ensures Distinct(ShownMarkets)
  {
    ShownLabelsDistinct();
  }

  /**
   * Only shown markets get a section, in the order of the list, under their heading, and each
   * section holds the first (at most 40) rows of its market across the feed.
   */
  lemma PanelShape(bms: seq<Bookmaker>)
    ensures PropsPanel(Some(bms)).Sections? ==>
      var secs := PropsPanel(Some(bms)).sections;
      (forall i :: 0 <= i < |secs| ==>
        secs[i].key in ShownMarkets && secs[i].title == Label(secs[i].key) && |secs[i].rows| <= 40
        && secs[i].rows == First40(FeedRows(bms, |bms|, secs[i].key)))
      && (forall i, j :: 0 <= i < j < |secs| ==>
        PositionIn(ShownMarkets, secs[i].key) < PositionIn(ShownMarkets, secs[j].key))
  {
    var groups := Grouped(bms);
    var secs := SectionsOf(groups, ShownMarkets);
    ShownMarketsDistinct();
    SectionsInOrder(groups, ShownMarkets);
    SectionsOfShape(groups, ShownMarkets);
    forall i | 0 <= i < |secs|
      ensures secs[i].rows == First40(FeedRows(bms, |bms|, secs[i].key))
    {
      GroupedRows(bms, |bms|, secs[i].key);
    }
  }
}
