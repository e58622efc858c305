/**
 * The seed script: rounds numbered 1..n, and for every stock a price path
 * drawn from a small trend state machine, one row per (stock, round) pair,
 * saved as unassigned round actions.
 *
 * The `Math.random()` results are parameters (`Draw`), and the float
 * arithmetic is exact arithmetic on reals with `Floor` where the script
 * calls `Math.floor`.
 */
module Trend {
  import opened Wrappers
  import opened Schema
  import Rounds
  import opened Store

  datatype Direction = Up | Down | Normal

  /** The per-stock entry of the trend map. */
  datatype TrendState = TrendState(direction: Direction, remainingRounds: int, magnitude: real)

  /** The entry every stock starts with, and the one a finished trend is reset to. */
  const Initial := TrendState(Normal, 0, 0.0)

  /** Chance that a round with no running trend starts one. */
  const OddProb: real := 0.1

  /**
   * The `Math.random()` results one (stock, round) step may consume, in call
   * order. A step inside a running trend consumes none, a step that starts a
   * trend consumes all four, a normal step the first three.
   */
  datatype Draw = Draw(first: real, second: real, third: real, fourth: real)

  /** What `Math.random()` guarantees: every result lies in [0, 1). */
  predicate ValidDraw(d: Draw) {
    && 0.0 <= d.first < 1.0 && 0.0 <= d.second < 1.0
    && 0.0 <= d.third < 1.0 && 0.0 <= d.fourth < 1.0
  }

  /** `calculateTrendDiff`: no change when normal, otherwise the floor of price × magnitude, signed by direction. */
  function CalculateTrendDiff(currentPrice: int, magnitude: real, direction: Direction): (d: int)
    ensures direction == Normal ==> d == 0
  {
    if direction == Normal then 0
    else
      var change := (currentPrice as real * magnitude).Floor;
      if direction == Up then change else -change
  }

  /**
   * A trend moves the price by price × magnitude rounded down, upward for Up
   * and with the sign flipped for Down.
   */
  lemma TrendDiffFloor(currentPrice: int, magnitude: real, direction: Direction)
    ensures var d := CalculateTrendDiff(currentPrice, magnitude, direction);
            var x := currentPrice as real * magnitude;
            && (direction == Up ==> d as real <= x < d as real + 1.0)
            && (direction == Down ==> -d as real <= x < -d as real + 1.0)
  {
    FloorOf(currentPrice as real * magnitude);
  }

  /** The floor of x is the integer at or just below it. */
  lemma FloorOf(x: real)
    ensures x.Floor as real <= x < x.Floor as real + 1.0
  {
  }

  /** A new trend entry and the diff of one step. */
  datatype Stepped = Stepped(trend: TrendState, diff: int)

  /** The body of the inner loop for one stock and one round. */
  function Step(t: TrendState, seedPrice: int, d: Draw): Stepped {
    if t.remainingRounds > 0 then
      var diff := CalculateTrendDiff(seedPrice, t.magnitude, t.direction);
      var left := t.remainingRounds - 1;
      Stepped(if left == 0 then TrendState(Normal, 0, 0.0) else t.(remainingRounds := left), diff)
    else if d.first < OddProb then
      var started := TrendState(if d.second < 0.5 then Up else Down, (d.third * 2.0).Floor + 2, d.fourth * 0.15 + 0.1);
      Stepped(started, CalculateTrendDiff(seedPrice, started.magnitude, started.direction))
    else
      var variation := d.second * 0.1;
      var sign := if d.third < 0.5 then 1.0 else -1.0;
      Stepped(t, (seedPrice as real * (variation * sign)).Floor)
  }

  /** One element pushed to the action list. */
  datatype Row = Row(roundInfoId: Id, stockId: Id, price: int, diff: int)

  /** The trend entry, running price and rows of one stock after some rounds. */
  datatype Walk = Walk(trend: TrendState, price: int, rows: seq<Row>)

  /** The inner loop for one stock over the listed rounds. */
  function WalkStock(stock: Stock, rounds: seq<RoundInfo>, draws: seq<Draw>): (w: Walk)
    requires |draws| == |rounds|
    ensures |w.rows| == |rounds|
    ensures forall j :: 0 <= j < |rounds| ==> w.rows[j].stockId == stock.id && w.rows[j].roundInfoId == rounds[j].id
    decreases |rounds|
  {
    if rounds == [] then Walk(Initial, stock.price, [])
    else
      var n := |rounds| - 1;
      var w := WalkStock(stock, rounds[..n], draws[..n]);
      var st := Step(w.trend, stock.price, draws[n]);
      Walk(st.trend, w.price + st.diff, w.rows + [Row(rounds[n].id, stock.id, w.price + st.diff, st.diff)])
  }

  /** The walk of one stock over its first `m` rounds. */
  function Prefix(stock: Stock, rounds: seq<RoundInfo>, draws: seq<Draw>, m: nat): Walk
    requires |draws| == |rounds| && m <= |rounds|
  {
    WalkStock(stock, rounds[..m], draws[..m])
  }

  /** Sum of the diffs of a list of rows. */
  function SumDiffs(rows: seq<Row>): int
    decreases |rows|
  {
    if rows == [] then 0 else SumDiffs(rows[..|rows| - 1]) + rows[|rows| - 1].diff
  }

  /** The whole `roundActions` list: stock after stock, each over all rounds. */
  function AllRows(stocks: seq<Stock>, rounds: seq<RoundInfo>, draws: seq<seq<Draw>>): (r: seq<Row>)
    requires |draws| == |stocks| && forall i :: 0 <= i < |stocks| ==> |draws[i]| == |rounds|
    ensures |r| == |stocks| * |rounds|
    decreases |stocks|
  {
    if stocks == [] then []
    else
      var n := |stocks| - 1;
      AllRows(stocks[..n], rounds, draws[..n]) + WalkStock(stocks[n], rounds, draws[n]).rows
  }

  // ---------------------------------------------------------------- the generator loop

  /** One pass of the inner loop body: the trend entry is updated in place and the diff computed. */
  method StepOnce(trend: TrendState, seedPrice: int, d: Draw) returns (next: TrendState, diff: int)
    ensures Stepped(next, diff) == Step(trend, seedPrice, d)
  {
    next := trend;
    diff := 0;
    if next.remainingRounds > 0 {
      diff := CalculateTrendDiff(seedPrice, next.magnitude, next.direction);
      next := next.(remainingRounds := next.remainingRounds - 1);
      if next.remainingRounds == 0 {
        next := next.(direction := Normal, magnitude := 0.0);
      }
    } else if d.first < OddProb {
      next := TrendState(if d.second < 0.5 then Up else Down, (d.third * 2.0).Floor + 2, d.fourth * 0.15 + 0.1);
      diff := CalculateTrendDiff(seedPrice, next.magnitude, next.direction);
    } else {
      var normalVariation := d.second * 0.1;
      diff := (seedPrice as real * (normalVariation * (if d.third < 0.5 then 1.0 else -1.0))).Floor;
    }
  }

  /** The inner loop for one stock: its entry in the trend map walks every round. */
  method WalkRounds(trends: map<Id, TrendState>, stock: Stock, rounds: seq<RoundInfo>, draws: seq<Draw>)
    returns (after: map<Id, TrendState>, rows: seq<Row>)
    requires |draws| == |rounds| && stock.id in trends && trends[stock.id] == Initial
    ensures after == trends[stock.id := WalkStock(stock, rounds, draws).trend]
    ensures rows == WalkStock(stock, rounds, draws).rows
  {
    after := trends;
    rows := [];
    var price := stock.price;
    for j := 0 to |rounds|
      invariant after == trends[stock.id := Prefix(stock, rounds, draws, j).trend]
      invariant price == Prefix(stock, rounds, draws, j).price
      invariant rows == Prefix(stock, rounds, draws, j).rows
    {
      PrefixStep(stock, rounds, draws, j);
      var trend, diff := StepOnce(after[stock.id], stock.price, draws[j]);
      after := after[stock.id := trend];
      rows := rows + [Row(rounds[j].id, stock.id, price + diff, diff)];
      price := price + diff;
    }
    assert rounds[..|rounds|] == rounds && draws[..|rounds|] == draws;
  }

  /**
   * `createRoundActions` on the stock and round listings: the trend map is
   * filled with the initial entry for every stock, then each stock walks
   * every round in turn.
   */
  method CreateRoundActions(stocks: seq<Stock>, rounds: seq<RoundInfo>, draws: seq<seq<Draw>>) returns (rows: seq<Row>)
    requires |draws| == |stocks| && forall i :: 0 <= i < |stocks| ==> |draws[i]| == |rounds|
    requires forall i, j :: 0 <= i < j < |stocks| ==> stocks[i].id != stocks[j].id
    ensures rows == AllRows(stocks, rounds, draws)
  {
    var trends: map<Id, TrendState> := map[];
    for i := 0 to |stocks|
      invariant forall k :: 0 <= k < i ==> stocks[k].id in trends && trends[stocks[k].id] == Initial
    {
      trends := trends[stocks[i].id := Initial];
    }
    rows := [];
    for i := 0 to |stocks|
      invariant rows == AllRows(stocks[..i], rounds, draws[..i])
      invariant forall k :: i <= k < |stocks| ==> stocks[k].id in trends && trends[stocks[k].id] == Initial
    {
      var stockRows;
      trends, stockRows := WalkRounds(trends, stocks[i], rounds, draws[i]);
      rows := rows + stockRows;
      assert stocks[..i + 1][..i] == stocks[..i] && draws[..i + 1][..i] == draws[..i];
      forall k | i + 1 <= k < |stocks| ensures stocks[k].id in trends && trends[stocks[k].id] == Initial {
        assert stocks[k].id != stocks[i].id;
      }
    }
    assert stocks[..|stocks|] == stocks && draws[..|stocks|] == draws;
  }

  // ---------------------------------------------------------------- properties of one walk

  /** One more round extends the walk by exactly one step. */
  lemma PrefixStep(stock: Stock, rounds: seq<RoundInfo>, draws: seq<Draw>, m: nat)
    requires |draws| == |rounds| && m < |rounds|
    ensures var w := Prefix(stock, rounds, draws, m);
            var st := Step(w.trend, stock.price, draws[m]);
            Prefix(stock, rounds, draws, m + 1)
              == Walk(st.trend, w.price + st.diff, w.rows + [Row(rounds[m].id, stock.id, w.price + st.diff, st.diff)])
  {
    assert rounds[..m + 1][..m] == rounds[..m] && draws[..m + 1][..m] == draws[..m];
    assert rounds[..m + 1][m] == rounds[m] && draws[..m + 1][m] == draws[m];
  }

  /** The rows of the first `m` rounds are the first `m` rows of the whole walk. */
  lemma {:induction false} PrefixRows(stock: Stock, rounds: seq<RoundInfo>, draws: seq<Draw>, m: nat)
    requires |draws| == |rounds| && m <= |rounds|
    ensures Prefix(stock, rounds, draws, m).rows == WalkStock(stock, rounds, draws).rows[..m]
    decreases |rounds|
  {
    if m == |rounds| {
      assert rounds[..m] == rounds && draws[..m] == draws;
    } else {
      var n := |rounds| - 1;
      PrefixRows(stock, rounds[..n], draws[..n], m);
      assert rounds[..n][..m] == rounds[..m] && draws[..n][..m] == draws[..m];
    }
  }

  /** Every row's price is `seed` plus the diffs up to and including its own. */
  ghost predicate RunningSums(rows: seq<Row>, seed: int) {
    forall j :: 0 <= j < |rows| ==> rows[j].price == seed + SumDiffs(rows[..j + 1])
  }

  /**
   * Every row's price is the seed price plus all diffs so far for that stock,
   * its own included, and the running price ends as the seed price plus all diffs.
   */
  lemma {:induction false} WalkPrices(stock: Stock, rounds: seq<RoundInfo>, draws: seq<Draw>)
    requires |draws| == |rounds|
    ensures var w := WalkStock(stock, rounds, draws);
            && w.price == stock.price + SumDiffs(w.rows)
            && RunningSums(w.rows, stock.price)
    decreases |rounds|
  {
    if rounds != [] {
      var n := |rounds| - 1;
      var w0 := WalkStock(stock, rounds[..n], draws[..n]);
      WalkPrices(stock, rounds[..n], draws[..n]);
      var st := Step(w0.trend, stock.price, draws[n]);
      var r := Row(rounds[n].id, stock.id, w0.price + st.diff, st.diff);
      var w := WalkStock(stock, rounds, draws);
      assert w.rows == w0.rows + [r] && w.price == w0.price + st.diff;
      RunningPrices(w0.rows, w0.price, stock.price, r);
    }
  }

  /** Appending a row whose price is the running price plus its diff keeps every row's price a running sum. */
  lemma RunningPrices(rows: seq<Row>, price: int, seed: int, r: Row)
    requires price == seed + SumDiffs(rows)
    requires RunningSums(rows, seed)
    requires r.price == price + r.diff
    ensures price + r.diff == seed + SumDiffs(rows + [r])
    ensures RunningSums(rows + [r], seed)
  {
    var all := rows + [r];
    assert all[..|rows|] == rows && all[..|rows| + 1] == all;
    forall j | 0 <= j < |all| ensures all[j].price == seed + SumDiffs(all[..j + 1]) {
      if j < |rows| {
        assert all[j] == rows[j] && all[..j + 1] == rows[..j + 1];
      }
    }
  }

  /**
   * A running trend with `c` rounds left gives each of the next `c` rounds
   * the same diff, computed from the seed price, and then resets to the
   * initial entry.
   */
  lemma {:induction false} Countdown(stock: Stock, rounds: seq<RoundInfo>, draws: seq<Draw>, m: nat, c: int)
    requires |draws| == |rounds| && c > 0 && m + c <= |rounds|
    requires Prefix(stock, rounds, draws, m).trend.remainingRounds == c
    ensures var t := Prefix(stock, rounds, draws, m).trend;
            forall i :: m <= i < m + c ==>
              WalkStock(stock, rounds, draws).rows[i].diff == CalculateTrendDiff(stock.price, t.magnitude, t.direction)
    ensures Prefix(stock, rounds, draws, m + c).trend == Initial
    decreases c
  {
    var t := Prefix(stock, rounds, draws, m).trend;
    PrefixStep(stock, rounds, draws, m);
    PrefixRows(stock, rounds, draws, m + 1);
    var rows := WalkStock(stock, rounds, draws).rows;
    assert rows[m] == Prefix(stock, rounds, draws, m + 1).rows[m];
    if c > 1 {
      Countdown(stock, rounds, draws, m + 1, c - 1);
    }
  }

  /**
   * A round with no running trend whose first draw falls under OddProb starts
   * a trend up or down of magnitude in [0.1, 0.25) lasting `k` more rounds,
   * k in {2, 3}; if the rounds run that far, all k + 1 rounds carry the same
   * diff and the entry is then reset.
   */
  lemma TrendLasts(stock: Stock, rounds: seq<RoundInfo>, draws: seq<Draw>, j: nat)
    requires |draws| == |rounds| && j < |rounds|
    requires Prefix(stock, rounds, draws, j).trend.remainingRounds <= 0
    requires draws[j].first < OddProb && ValidDraw(draws[j])
    ensures var t := Prefix(stock, rounds, draws, j + 1).trend;
            var k := t.remainingRounds;
            && t.direction != Normal && 0.1 <= t.magnitude < 0.25 && (k == 2 || k == 3)
            && (j + 1 + k <= |rounds| ==>
                  && (forall i :: j <= i <= j + k ==>
                        WalkStock(stock, rounds, draws).rows[i].diff == WalkStock(stock, rounds, draws).rows[j].diff)
                  && Prefix(stock, rounds, draws, j + 1 + k).trend == Initial)
  {
    var w := Prefix(stock, rounds, draws, j);
    var st := Step(w.trend, stock.price, draws[j]);
    PrefixStep(stock, rounds, draws, j);
    StartedTrend(w.trend, stock.price, draws[j]);
    var t := st.trend;
    assert Prefix(stock, rounds, draws, j + 1).trend == t;
    var k := t.remainingRounds;
    if j + 1 + k <= |rounds| {
      var rows := WalkStock(stock, rounds, draws).rows;
      PrefixRows(stock, rounds, draws, j + 1);
      assert rows[j] == Prefix(stock, rounds, draws, j + 1).rows[j];
      var diff := CalculateTrendDiff(stock.price, t.magnitude, t.direction);
      assert rows[j].diff == diff;
      Countdown(stock, rounds, draws, j + 1, k);
      forall i | j <= i <= j + k ensures rows[i].diff == rows[j].diff {
        if i > j {
          assert rows[i].diff == diff;
        }
      }
    }
  }

  // ---------------------------------------------------------------- size of one step's move

  /** Multiplying by a non-negative price keeps the order of two factors. */
  lemma ScaleReal(p: real, a: real, b: real)
    requires p >= 0.0 && a <= b
    ensures p * a <= p * b
  {
    assert p * b - p * a == p * (b - a);
  }

  /** Multiplying by a natural number keeps the order of two natural numbers. */
  lemma MulMono(a: nat, b: nat, r: nat)
    requires a <= b
    ensures a * r <= b * r
    decreases b - a
  {
    if a < b {
      MulMono(a, b - 1, r);
      assert (b - 1) * r + r == b * r;
    }
  }

  /** Rounding down a number between two bounds stays above the lower one less one and under the upper one. */
  lemma FloorBetween(x: real, lo: real, hi: real)
    requires lo <= x <= hi
    ensures lo - 1.0 < x.Floor as real <= hi
  {
  }

  /** Multiplying by a sign of one or minus one. */
  lemma Signed(p: real, v: real)
    ensures p * (v * 1.0) == p * v && p * (v * -1.0) == -(p * v)
  {
  }

  /**
   * A step with no running trend whose first draw falls under OddProb starts
   * a trend up or down, of magnitude in [0.1, 0.25), with 2 or 3 rounds left,
   * and its own diff is the trend diff of that magnitude.
   */
  lemma StartedTrend(t: TrendState, seedPrice: int, d: Draw)
    requires t.remainingRounds <= 0 && d.first < OddProb && ValidDraw(d)
    ensures var r := Step(t, seedPrice, d);
            && r.trend.direction != Normal
            && 0.1 <= r.trend.magnitude < 0.25
            && (r.trend.remainingRounds == 2 || r.trend.remainingRounds == 3)
            && r.diff == CalculateTrendDiff(seedPrice, r.trend.magnitude, r.trend.direction)
  {
    assert 0.0 <= d.third * 2.0 < 2.0;
  }

  /**
   * A normal round leaves the entry alone and moves the price by at most a
   * tenth of the seed price: up when the sign draw is under 0.5, down otherwise.
   */
  lemma NormalBound(t: TrendState, seedPrice: int, d: Draw)
    requires t.remainingRounds <= 0 && d.first >= OddProb && ValidDraw(d) && seedPrice >= 0
    ensures var r := Step(t, seedPrice, d);
            && r.trend == t
            && (d.third < 0.5 ==> 0 <= r.diff && r.diff as real <= seedPrice as real / 10.0)
            && (d.third >= 0.5 ==> r.diff <= 0 && r.diff as real > -(seedPrice as real) / 10.0 - 1.0)
  {
    var p, v, up := seedPrice as real, d.second * 0.1, d.third < 0.5;
    SignedFloor(p, v, up);
    assert Step(t, seedPrice, d).diff == (p * (v * (if up then 1.0 else -1.0))).Floor;
  }

  /** The non-trend move on reals: the floor of p × ±v, for v in [0, 0.1]. */
  lemma SignedFloor(p: real, v: real, up: bool)
    requires p >= 0.0 && 0.0 <= v <= 0.1
    ensures var f := (p * (v * (if up then 1.0 else -1.0))).Floor;
            && (up ==> 0 <= f && f as real <= p / 10.0)
            && (!up ==> f <= 0 && f as real > -p / 10.0 - 1.0)
  {
    ScaledBounds(p, v);
    Signed(p, v);
    FloorSigned(p * v, p / 10.0, up);
  }

  /** A non-negative price times a variation in [0, 0.1] lies between zero and a tenth of the price. */
  lemma ScaledBounds(p: real, v: real)
    requires p >= 0.0 && 0.0 <= v <= 0.1
    ensures 0.0 <= p * v <= p / 10.0
  {
    ScaleReal(p, 0.0, v);
    ScaleReal(p, v, 0.1);
  }

  /** The floor of x or of -x, for x between zero and h. */
  lemma FloorSigned(x: real, h: real, up: bool)
    requires 0.0 <= x <= h
    ensures var f := (if up then x else -x).Floor;
            && (up ==> 0 <= f && f as real <= h)
            && (!up ==> f <= 0 && f as real > -h - 1.0)
  {
    if up {
      FloorBetween(x, 0.0, h);
    } else {
      FloorBetween(-x, -h, 0.0);
    }
  }

  // ---------------------------------------------------------------- layout of the whole list

  lemma Offset(i: nat, j: nat, n: nat, r: nat)
    requires i < n && j < r
    ensures i * r + j < n * r
  {
    MulMono(i + 1, n, r);
    assert (i + 1) * r == i * r + r;
  }

  /**
   * The list holds exactly one row per (stock, round) pair, stock after stock
   * and round after round within a stock: row `j` of stock `i` sits at
   * position i × |rounds| + j, and it is row `j` of that stock's own walk,
   * which depends on nothing but that stock and its draws.
   */
  lemma {:induction false} LayoutAt(stocks: seq<Stock>, rounds: seq<RoundInfo>, draws: seq<seq<Draw>>, i: nat, j: nat)
    requires |draws| == |stocks| && forall k :: 0 <= k < |stocks| ==> |draws[k]| == |rounds|
    requires i < |stocks| && j < |rounds|
    ensures i * |rounds| + j < |AllRows(stocks, rounds, draws)|
    ensures AllRows(stocks, rounds, draws)[i * |rounds| + j] == WalkStock(stocks[i], rounds, draws[i]).rows[j]
    ensures AllRows(stocks, rounds, draws)[i * |rounds| + j].stockId == stocks[i].id
    ensures AllRows(stocks, rounds, draws)[i * |rounds| + j].roundInfoId == rounds[j].id
    decreases |stocks|
  {
    var n := |stocks| - 1;
    var R := |rounds|;
    var head := AllRows(stocks[..n], rounds, draws[..n]);
    assert AllRows(stocks, rounds, draws) == head + WalkStock(stocks[n], rounds, draws[n]).rows;
    assert |head| == n * R;
    if i < n {
      LayoutAt(stocks[..n], rounds, draws[..n], i, j);
      Offset(i, j, n, R);
      assert stocks[..n][i] == stocks[i] && draws[..n][i] == draws[i];
    }
  }

  // ---------------------------------------------------------------- writes of the seed script

  /** The rounds of `createRounds(n)`: fresh unstarted rows numbered 1..n. */
  function WithRounds(s: State, n: nat): (r: State)
    requires WellFormed(s)
    ensures WellFormed(r) && r.nextId == s.nextId + n
    ensures forall k :: k in r.rounds <==> k in s.rounds || s.nextId <= k < s.nextId + n
    ensures forall k :: k in s.rounds ==> r.rounds[k] == s.rounds[k]
    ensures forall k :: k in r.rounds && k !in s.rounds ==>
              r.rounds[k] == RoundInfo(k, k - s.nextId + 1, None, None)
    ensures r.(rounds := s.rounds, nextId := s.nextId) == s
    decreases n
  {
    if n == 0 then s else Rounds.CreateRound(WithRounds(s, n - 1), n)
  }

  /** `createRounds`: one insert per round number, counting up from 1. */
  method CreateRounds(db: Db, n: nat)
    requires db.Valid()
    modifies db
    ensures db.Valid()
    ensures db.View() == WithRounds(old(db.View()), n)
  {
    ghost var s0 := db.View();
    for i := 0 to n
      invariant db.Valid() && db.View() == WithRounds(s0, i)
    {
      db.CreateRound(i + 1);
    }
  }

  /** Every row points at a stock and a round of the table. */
  predicate Refers(s: State, rows: seq<Row>) {
    forall j :: 0 <= j < |rows| ==> rows[j].stockId in s.stocks && rows[j].roundInfoId in s.rounds
  }

  /** The saved action matches its row and is unassigned. */
  predicate SavedAs(a: RoundAction, row: Row) {
    a.stockId == row.stockId && a.roundInfoId == row.roundInfoId && a.price == row.price
      && a.diff == row.diff && a.userId.None?
  }

  /** The save loop of the seed script: `saveRoundAction` for each row in turn. */
  function SaveRows(s: State, rows: seq<Row>): (r: State)
    requires WellFormed(s) && Refers(s, rows)
    ensures WellFormed(r) && r.stocks == s.stocks && r.rounds == s.rounds
    ensures |r.actions| == |s.actions| + |rows| && r.actions[..|s.actions|] == s.actions
    ensures forall j :: 0 <= j < |rows| ==> SavedAs(r.actions[|s.actions| + j], rows[j])
    ensures r.(actions := s.actions, nextId := s.nextId) == s
    decreases |rows|
  {
    if rows == [] then s
    else
      var n := |rows| - 1;
      var before := SaveRows(s, rows[..n]);
      Rounds.SaveRoundAction(before, rows[n].stockId, rows[n].diff, rows[n].roundInfoId, rows[n].price)
  }

  /** The save loop of the seed script's `main`. */
  method SaveRoundActions(db: Db, rows: seq<Row>)
    requires db.Valid() && Refers(db.View(), rows)
    modifies db
    ensures db.Valid()
    ensures db.View() == SaveRows(old(db.View()), rows)
  {
    ghost var s0 := db.View();
    for j := 0 to |rows|
      invariant db.Valid() && db.View() == SaveRows(s0, rows[..j])
    {
      assert rows[..j + 1][..j] == rows[..j] && rows[..j + 1][j] == rows[j];
      db.SaveRoundAction(rows[j].stockId, rows[j].diff, rows[j].roundInfoId, rows[j].price);
    }
    assert rows[..|rows|] == rows;
  }
}
