/**
 * The order endpoint: a multi-line buy or sell request for one user, applied
 * line by line as a sequence of table writes with no rollback.
 */
module OrderRoute {
  import opened Wrappers
  import opened Schema
  import Repository
  import Queries
  import opened Store

  datatype LineItem = LineItem(stockId: Id, quantity: int, price: int)

  /** An entry of the holdings list the client sends along with a sell. */
  datatype ClientHolding = ClientHolding(id: Id, quantity: int)

  /** The request body. `userBalance` and `userStocks` come from the client. */
  datatype OrderRequest = OrderRequest(
    kind: string,
    userId: Id,
    orders: seq<LineItem>,
    totalAmount: int,
    userBalance: int,
    userStocks: seq<ClientHolding>)

  /** The error messages of the endpoint, one kind per message. */
  datatype OrderError =
    | UserNotFound
    | InsufficientFunds
    | StockNotFound
    | InsufficientInventory
    | InsufficientHoldings
    | InvalidOrderType
    | ProcessingError

  datatype OrderResponse =
    | Completed(side: Side, user: User, stocks: seq<Stock>)
    | Rejected(error: OrderError)

  /** The database a request leaves, the error it stopped with, and how many line items it fully applied. */
  datatype Outcome = Outcome(state: State, failed: Option<OrderError>, applied: nat)

  /** What one line item moves between the user's balance and the market. */
  function Amount(l: LineItem): int {
    l.price * l.quantity
  }

  /** The running balance after buying one line. */
  function Debit(balance: int, l: LineItem): int {
    balance - Amount(l)
  }

  /** The running balance after selling one line. */
  function Credit(balance: int, l: LineItem): int {
    balance + Amount(l)
  }

  /** The sum of the line amounts. */
  function Cost(lines: seq<LineItem>): int
    decreases |lines|
  {
    if lines == [] then 0 else Amount(lines[0]) + Cost(lines[1..])
  }

  /**
   * What one line item leaves in the database: its order row, the holding
   * moved by the quantity (or created with it), the balance set, and the
   * inventory moved the other way. `FourWrites` proves it is the four
   * repository writes in the endpoint's order.
   */
  function ApplyLine(s: State, side: Side, userId: Id, l: LineItem, balance: int): (r: State)
    requires WellFormed(s) && userId in s.users && l.stockId in s.stocks
    ensures WellFormed(r)
  {
    var key := (userId, l.stockId);
    var held := Repository.HeldAfter(s.holdings, side, userId, l.stockId, l.quantity);
    var inventory := Repository.InventoryAfter(s.stocks[l.stockId].quantity, side, l.quantity);
    s.(orders := s.orders + [Order(s.nextId, userId, l.stockId, l.quantity, l.price, side)],
       nextId := s.nextId + 1,
       holdings := s.holdings[key := UserStock(userId, l.stockId, held)],
       users := s.users[userId := s.users[userId].(balance := balance)],
       stocks := s.stocks[l.stockId := s.stocks[l.stockId].(quantity := inventory)])
  }

  /** The state after the first two writes of a line item: the order row and the holding. */
  function OrderAndHolding(s: State, side: Side, userId: Id, l: LineItem): (r: State)
    requires WellFormed(s) && userId in s.users && l.stockId in s.stocks
    ensures WellFormed(r) && userId in r.users && l.stockId in r.stocks
  {
    var s1 := Repository.AddOrder(s, userId, l.stockId, l.quantity, l.price, side);
    Repository.UpdateUserStock(s1, side, userId, l.stockId, l.quantity)
  }

  /** The first two writes leave the holdings as `ApplyLine` does. */
  lemma TwoWritesHoldings(s: State, side: Side, userId: Id, l: LineItem, balance: int)
    requires WellFormed(s) && userId in s.users && l.stockId in s.stocks
    ensures OrderAndHolding(s, side, userId, l).holdings == ApplyLine(s, side, userId, l, balance).holdings
  {
    var s1 := Repository.AddOrder(s, userId, l.stockId, l.quantity, l.price, side);
    assert s1.holdings == s.holdings;
  }

  /** The first two writes leave the order log, the counter and the holdings as `ApplyLine` does, and the rest alone. */
  lemma FirstTwoWrites(s: State, side: Side, userId: Id, l: LineItem, balance: int)
    requires WellFormed(s) && userId in s.users && l.stockId in s.stocks
    ensures var s2 := OrderAndHolding(s, side, userId, l);
            var r := ApplyLine(s, side, userId, l, balance);
            s2.orders == r.orders && s2.nextId == r.nextId && s2.holdings == r.holdings
            && s2.users == s.users && s2.stocks == s.stocks && s2.rounds == s.rounds && s2.actions == s.actions
  {
    TwoWritesHoldings(s, side, userId, l, balance);
  }

  /** `addOrder`, `updateUserStock`, `updateUserBalance` and `updateStockQuantity` in turn make `ApplyLine`. */
  lemma FourWrites(s: State, side: Side, userId: Id, l: LineItem, balance: int)
    requires WellFormed(s) && userId in s.users && l.stockId in s.stocks
    ensures var s2 := OrderAndHolding(s, side, userId, l);
            var s3 := Repository.UpdateUserBalance(s2, userId, balance);
            Repository.UpdateStockQuantity(s3, l.stockId, side, l.quantity) == ApplyLine(s, side, userId, l, balance)
  {
    var s2 := OrderAndHolding(s, side, userId, l);
    FirstTwoWrites(s, side, userId, l, balance);
    var s3 := Repository.UpdateUserBalance(s2, userId, balance);
    var r := ApplyLine(s, side, userId, l, balance);
    assert s3.users == r.users && s3.stocks == s.stocks;
  }

  /**
   * The buy loop: each line re-reads its stock, stops the request when the
   * stock is missing or short, and otherwise writes with the running balance.
   */
  function BuyLines(s: State, userId: Id, balance: int, lines: seq<LineItem>): (o: Outcome)
    requires WellFormed(s) && userId in s.users
    ensures WellFormed(o.state) && userId in o.state.users && forall k :: k in s.stocks ==> k in o.state.stocks
    ensures o.applied <= |lines|
    ensures o.failed.None? <==> o.applied == |lines|
    decreases |lines|
  {
    if lines == [] then Outcome(s, None, 0)
    else
      var l := lines[0];
      if l.stockId !in s.stocks then Outcome(s, Some(StockNotFound), 0)
      else if s.stocks[l.stockId].quantity < l.quantity then Outcome(s, Some(InsufficientInventory), 0)
      else
        var bal := Debit(balance, l);
        var o := BuyLines(ApplyLine(s, BUY, userId, l, bal), userId, bal, lines[1..]);
        o.(applied := o.applied + 1)
  }

  /**
   * The sell loop, entered only after every line passed the holdings check.
   * A line for a stock that does not exist gets its order row, and then the
   * holding insert fails on the stock relation: the request stops with the
   * generic processing error. This takes the order's stock id to be a plain
   * column and the holding's a relation; the schema is not part of this model.
   */
  function SellLines(s: State, userId: Id, balance: int, lines: seq<LineItem>): (o: Outcome)
    requires WellFormed(s) && userId in s.users
    ensures WellFormed(o.state) && userId in o.state.users && forall k :: k in s.stocks ==> k in o.state.stocks
    ensures o.applied <= |lines|
    ensures o.failed.None? <==> o.applied == |lines|
    decreases |lines|
  {
    if lines == [] then Outcome(s, None, 0)
    else
      var l := lines[0];
      var bal := Credit(balance, l);
      if l.stockId !in s.stocks then
        Outcome(Repository.AddOrder(s, userId, l.stockId, l.quantity, l.price, SELL), Some(ProcessingError), 0)
      else
        var o := SellLines(ApplyLine(s, SELL, userId, l, bal), userId, bal, lines[1..]);
        o.(applied := o.applied + 1)
  }

  /** `userStocks.find(...)`: the first client entry whose id is the stock id. */
  function FindClientHolding(snapshot: seq<ClientHolding>, stockId: Id): (r: Option<ClientHolding>)
    ensures r.None? <==> forall i :: 0 <= i < |snapshot| ==> snapshot[i].id != stockId
    ensures r.Some? ==> exists i :: 0 <= i < |snapshot| && snapshot[i] == r.value && r.value.id == stockId
                          && forall j :: 0 <= j < i ==> snapshot[j].id != stockId
    decreases |snapshot|
  {
    if snapshot == [] then None
    else if snapshot[0].id == stockId then Some(snapshot[0])
    else
      var r := FindClientHolding(snapshot[1..], stockId);
      assert forall i :: 0 < i < |snapshot| ==> snapshot[i] == snapshot[1..][i - 1];
      r
  }

  /** The client says it holds at least the quantity a line sells. */
  predicate Covers(snapshot: seq<ClientHolding>, l: LineItem) {
    var h := FindClientHolding(snapshot, l.stockId);
    h.Some? && h.value.quantity >= l.quantity
  }

  /** The sell pre-check over all lines. */
  function AllCovered(snapshot: seq<ClientHolding>, lines: seq<LineItem>): (r: bool)
    ensures r <==> forall i :: 0 <= i < |lines| ==> Covers(snapshot, lines[i])
    decreases |lines|
  {
    if lines == [] then true
    else
      var rest := AllCovered(snapshot, lines[1..]);
      assert forall i :: 0 < i < |lines| ==> lines[i] == lines[1..][i - 1];
      Covers(snapshot, lines[0]) && rest
  }

  /** What a request does to the database, as the endpoint processes it. */
  function ApplyOrder(s: State, req: OrderRequest): (o: Outcome)
    requires WellFormed(s)
    ensures WellFormed(o.state)
  {
    if req.userId !in s.users then Outcome(s, Some(UserNotFound), 0)
    else if req.kind == "buy" then
      if req.totalAmount > req.userBalance then Outcome(s, Some(InsufficientFunds), 0)
      else BuyLines(s, req.userId, s.users[req.userId].balance, req.orders)
    else if req.kind == "sell" then
      if !AllCovered(req.userStocks, req.orders) then Outcome(s, Some(InsufficientHoldings), 0)
      else SellLines(s, req.userId, s.users[req.userId].balance, req.orders)
    else Outcome(s, Some(InvalidOrderType), 0)
  }

  /** The four writes of one line item, in the endpoint's order. */
  method WriteLine(db: Db, side: Side, userId: Id, line: LineItem, balance: int)
    requires db.Valid() && userId in db.users && line.stockId in db.stocks
    modifies db
    ensures db.Valid() && userId in db.users
    ensures db.View() == ApplyLine(old(db.View()), side, userId, line, balance)
  {
    FourWrites(db.View(), side, userId, line, balance);
    db.AddOrder(userId, line.stockId, line.quantity, line.price, side);
    db.UpdateUserStock(side, userId, line.stockId, line.quantity);
    db.UpdateUserBalance(userId, balance);
    db.UpdateStockQuantity(line.stockId, side, line.quantity);
  }

  /** One step of the buy loop: a first line that passes its checks, written to give `next`. */
  lemma BuyLinesStep(s: State, next: State, userId: Id, balance: int, lines: seq<LineItem>)
    requires WellFormed(s) && userId in s.users && lines != []
    requires lines[0].stockId in s.stocks && s.stocks[lines[0].stockId].quantity >= lines[0].quantity
    requires next == ApplyLine(s, BUY, userId, lines[0], Debit(balance, lines[0]))
    ensures var o' := BuyLines(next, userId, Debit(balance, lines[0]), lines[1..]);
            BuyLines(s, userId, balance, lines) == o'.(applied := o'.applied + 1)
  {
  }

  /** One step of the sell loop: a first line whose stock exists, written to give `next`. */
  lemma SellLinesStep(s: State, next: State, userId: Id, balance: int, lines: seq<LineItem>)
    requires WellFormed(s) && userId in s.users && lines != [] && lines[0].stockId in s.stocks
    requires next == ApplyLine(s, SELL, userId, lines[0], Credit(balance, lines[0]))
    ensures var o' := SellLines(next, userId, Credit(balance, lines[0]), lines[1..]);
            SellLines(s, userId, balance, lines) == o'.(applied := o'.applied + 1)
  {
  }

  /** The buy loop stops at a first line whose stock is missing or short, writing nothing for it. */
  lemma BuyLinesStop(s: State, userId: Id, balance: int, lines: seq<LineItem>)
    requires WellFormed(s) && userId in s.users && lines != []
    requires lines[0].stockId !in s.stocks || s.stocks[lines[0].stockId].quantity < lines[0].quantity
    ensures BuyLines(s, userId, balance, lines) ==
            Outcome(s, Some(if lines[0].stockId !in s.stocks then StockNotFound else InsufficientInventory), 0)
  {
  }

  /** The sell loop stops at a first line whose stock is missing, after writing its order row. */
  lemma SellLinesStop(s: State, userId: Id, balance: int, lines: seq<LineItem>)
    requires WellFormed(s) && userId in s.users && lines != [] && lines[0].stockId !in s.stocks
    ensures SellLines(s, userId, balance, lines) ==
            Outcome(Repository.AddOrder(s, userId, lines[0].stockId, lines[0].quantity, lines[0].price, SELL),
                    Some(ProcessingError), 0)
  {
  }

  /** One pass of the buy loop: checks the first line against the live stock and writes it. */
  method BuyOne(db: Db, userId: Id, balance: int, lines: seq<LineItem>) returns (stop: Option<OrderError>, next: int)
    requires db.Valid() && userId in db.users && lines != []
    modifies db
    ensures db.Valid() && userId in db.users
    ensures stop.Some? ==> BuyLines(old(db.View()), userId, balance, lines) == Outcome(db.View(), stop, 0)
    ensures stop.None? ==> var o := BuyLines(db.View(), userId, next, lines[1..]);
                           BuyLines(old(db.View()), userId, balance, lines) == o.(applied := o.applied + 1)
  {
    var line := lines[0];
    var curStock := Repository.GetStockById(db.View(), line.stockId);
    if curStock.None? || curStock.value.quantity < line.quantity {
      BuyLinesStop(db.View(), userId, balance, lines);
      return if curStock.None? then Some(StockNotFound) else Some(InsufficientInventory), balance;
    }
    ghost var cur := db.View();
    next := Debit(balance, line);
    WriteLine(db, BUY, userId, line, next);
    BuyLinesStep(cur, db.View(), userId, balance, lines);
    stop := None;
  }

  /** The buy loop of the endpoint, over the live database. */
  method BuyAll(db: Db, userId: Id, balance: int, lines: seq<LineItem>) returns (failed: Option<OrderError>)
    requires db.Valid() && userId in db.users
    modifies db
    ensures db.Valid()
    ensures var o := BuyLines(old(db.View()), userId, balance, lines);
            db.View() == o.state && failed == o.failed
  {
    ghost var o0 := BuyLines(db.View(), userId, balance, lines);
    assert lines[0..] == lines;
    var running := balance;
    var i := 0;
    while i < |lines|
      invariant 0 <= i <= |lines|
      invariant db.Valid() && userId in db.users
      invariant BuyLines(db.View(), userId, running, lines[i..]).state == o0.state
      invariant BuyLines(db.View(), userId, running, lines[i..]).failed == o0.failed
    {
      var stop;
      stop, running := BuyOne(db, userId, running, lines[i..]);
      if stop.Some? {
        return stop;
      }
      assert lines[i..][1..] == lines[i + 1..];
      i := i + 1;
    }
    assert lines[i..] == [];
    failed := None;
  }

  /** The sell pre-check: every line against the client's holdings list, before any write. */
  method CheckHoldings(snapshot: seq<ClientHolding>, lines: seq<LineItem>) returns (ok: bool)
    ensures ok <==> forall i :: 0 <= i < |lines| ==> Covers(snapshot, lines[i])
  {
    var j := 0;
    while j < |lines|
      invariant 0 <= j <= |lines|
      invariant forall k :: 0 <= k < j ==> Covers(snapshot, lines[k])
    {
      var held := FindClientHolding(snapshot, lines[j].stockId);
      if held.None? || held.value.quantity < lines[j].quantity {
        return false;
      }
      j := j + 1;
    }
    ok := true;
  }

  /** One pass of the sell loop: writes the first line, or its order row alone when its stock is missing. */
  method SellOne(db: Db, userId: Id, balance: int, lines: seq<LineItem>) returns (stop: Option<OrderError>, next: int)
    requires db.Valid() && userId in db.users && lines != []
    modifies db
    ensures db.Valid() && userId in db.users
    ensures stop.Some? ==> SellLines(old(db.View()), userId, balance, lines) == Outcome(db.View(), stop, 0)
    ensures stop.None? ==> var o := SellLines(db.View(), userId, next, lines[1..]);
                           SellLines(old(db.View()), userId, balance, lines) == o.(applied := o.applied + 1)
  {
    var line := lines[0];
    next := Credit(balance, line);
    if line.stockId !in db.stocks {
      SellLinesStop(db.View(), userId, balance, lines);
      db.AddOrder(userId, line.stockId, line.quantity, line.price, SELL);
      return Some(ProcessingError), next;
    }
    ghost var cur := db.View();
    WriteLine(db, SELL, userId, line, next);
    SellLinesStep(cur, db.View(), userId, balance, lines);
    stop := None;
  }

  /** The sell loop of the endpoint, over the live database. */
  method SellAll(db: Db, userId: Id, balance: int, lines: seq<LineItem>) returns (failed: Option<OrderError>)
    requires db.Valid() && userId in db.users
    modifies db
    ensures db.Valid()
    ensures var o := SellLines(old(db.View()), userId, balance, lines);
            db.View() == o.state && failed == o.failed
  {
    ghost var o0 := SellLines(db.View(), userId, balance, lines);
    assert lines[0..] == lines;
    var running := balance;
    var i := 0;
    while i < |lines|
      invariant 0 <= i <= |lines|
      invariant db.Valid() && userId in db.users
      invariant SellLines(db.View(), userId, running, lines[i..]).state == o0.state
      invariant SellLines(db.View(), userId, running, lines[i..]).failed == o0.failed
    {
      var stop;
      stop, running := SellOne(db, userId, running, lines[i..]);
      if stop.Some? {
        return stop;
      }
      assert lines[i..][1..] == lines[i + 1..];
      i := i + 1;
    }
    assert lines[i..] == [];
    failed := None;
  }

  /** The endpoint. */
  method Action(db: Db, req: OrderRequest) returns (resp: OrderResponse)
    requires db.Valid()
    modifies db
    ensures db.Valid()
    ensures var o := ApplyOrder(old(db.View()), req);
            && db.View() == o.state
            && (resp.Rejected? <==> o.failed.Some?)
            && (resp.Rejected? ==> resp.error == o.failed.value)
    ensures req.userId !in old(db.users) ==> resp == Rejected(UserNotFound) && db.View() == old(db.View())
    ensures req.userId in old(db.users) && req.kind == "buy" && req.totalAmount > req.userBalance ==>
              resp == Rejected(InsufficientFunds) && db.View() == old(db.View())
    ensures req.userId in old(db.users) && req.kind == "sell" &&
            (exists i :: 0 <= i < |req.orders| && !Covers(req.userStocks, req.orders[i])) ==>
              resp == Rejected(InsufficientHoldings) && db.View() == old(db.View())
    ensures req.userId in old(db.users) && req.kind != "buy" && req.kind != "sell" ==>
              resp == Rejected(InvalidOrderType) && db.View() == old(db.View())
    ensures resp.Completed? ==> && resp.side == (if req.kind == "buy" then BUY else SELL)
                                && req.userId in db.users && resp.user == db.users[req.userId]
                                && Queries.SortedByName(resp.stocks) && |resp.stocks| == |db.stocks|
                                && (forall k :: k in db.stocks ==> db.stocks[k] in resp.stocks)
  {
    var user := Repository.GetUserById(db.View(), req.userId);
    if user.None? {
      return Rejected(UserNotFound);
    }
    var side;
    if req.kind == "buy" {
      if req.totalAmount > req.userBalance {
        return Rejected(InsufficientFunds);
      }
      var failed := BuyAll(db, req.userId, user.value.balance, req.orders);
      if failed.Some? {
        return Rejected(failed.value);
      }
      side := BUY;
    } else if req.kind == "sell" {
      var ok := CheckHoldings(req.userStocks, req.orders);
      if !ok {
        return Rejected(InsufficientHoldings);
      }
      var failed := SellAll(db, req.userId, user.value.balance, req.orders);
      if failed.Some? {
        return Rejected(failed.value);
      }
      side := SELL;
    } else {
      return Rejected(InvalidOrderType);
    }
    var updated := Repository.GetUserById(db.View(), req.userId);
    var stocks := Queries.ListStocks(db.stocks);
    resp := Completed(side, updated.value, stocks);
  }

  // ---------------------------------------------------------------- properties

  /** The units of stock `k` the line items move. */
  function QtyOf(lines: seq<LineItem>, k: Id): int
    decreases |lines|
  {
    if lines == [] then 0 else (if lines[0].stockId == k then lines[0].quantity else 0) + QtyOf(lines[1..], k)
  }

  /** The quantity of a holding, zero when the row does not exist. */
  function Held(s: State, userId: Id, stockId: Id): int {
    if (userId, stockId) in s.holdings then s.holdings[(userId, stockId)].quantity else 0
  }

  /** A prefix one longer splits into its first element and a prefix of the tail. */
  lemma PrefixSplit(lines: seq<LineItem>, n: nat)
    requires n < |lines|
    ensures lines[..n + 1][0] == lines[0] && lines[..n + 1][1..] == lines[1..][..n]
  {
  }

  /** The order rows a run of line items appends, with consecutive ids from `firstId`. */
  function OrdersOf(userId: Id, lines: seq<LineItem>, side: Side, firstId: Id): (r: seq<Order>)
    ensures |r| == |lines|
    decreases |lines|
  {
    if lines == [] then []
    else [Order(firstId, userId, lines[0].stockId, lines[0].quantity, lines[0].price, side)]
         + OrdersOf(userId, lines[1..], side, firstId + 1)
  }

  /** Row `i` of the appended orders carries line `i`'s stock, quantity and price, and id `firstId + i`. */
  lemma {:induction false} OrdersOfAt(userId: Id, lines: seq<LineItem>, side: Side, firstId: Id, i: nat)
    requires i < |lines|
    ensures OrdersOf(userId, lines, side, firstId)[i] ==
            Order(firstId + i, userId, lines[i].stockId, lines[i].quantity, lines[i].price, side)
    decreases |lines|
  {
    if i > 0 {
      OrdersOfAt(userId, lines[1..], side, firstId + 1, i - 1);
    }
  }

  /** One line item appends its order row and takes one id. */
  lemma ApplyLineLog(s: State, side: Side, userId: Id, l: LineItem, balance: int)
    requires WellFormed(s) && userId in s.users && l.stockId in s.stocks
    ensures var r := ApplyLine(s, side, userId, l, balance);
            r.orders == s.orders + [Order(s.nextId, userId, l.stockId, l.quantity, l.price, side)]
            && r.nextId == s.nextId + 1
  {
  }

  /** A log extended by the first line's row and then by the rows of the next `n` lines. */
  lemma OrdersOfSnoc(log: seq<Order>, userId: Id, lines: seq<LineItem>, side: Side, firstId: Id, n: nat)
    requires n < |lines|
    ensures var ord := Order(firstId, userId, lines[0].stockId, lines[0].quantity, lines[0].price, side);
            (log + [ord]) + OrdersOf(userId, lines[1..][..n], side, firstId + 1) ==
            log + OrdersOf(userId, lines[..n + 1], side, firstId)
  {
    PrefixSplit(lines, n);
    var ord := Order(firstId, userId, lines[0].stockId, lines[0].quantity, lines[0].price, side);
    var rest := OrdersOf(userId, lines[1..][..n], side, firstId + 1);
    assert OrdersOf(userId, lines[..n + 1], side, firstId) == [ord] + rest;
    assert (log + [ord]) + rest == log + ([ord] + rest);
  }

  /**
   * One line item: one order appended with the line's fields, the user's
   * holding of the stock moved by the quantity (or created with it), the
   * balance set, the inventory moved the other way, and nothing else.
   */
  lemma ApplyLineEffect(s: State, side: Side, userId: Id, l: LineItem, balance: int)
    requires WellFormed(s) && userId in s.users && l.stockId in s.stocks
    ensures var r := ApplyLine(s, side, userId, l, balance);
            && r.orders == s.orders + [Order(s.nextId, userId, l.stockId, l.quantity, l.price, side)]
            && r.nextId == s.nextId + 1
            && r.holdings.Keys == s.holdings.Keys + {(userId, l.stockId)}
            && Held(r, userId, l.stockId) ==
                 (if (userId, l.stockId) !in s.holdings then l.quantity
                  else if side == BUY then Held(s, userId, l.stockId) + l.quantity
                  else Held(s, userId, l.stockId) - l.quantity)
            && (forall key :: key in s.holdings && key != (userId, l.stockId) ==> r.holdings[key] == s.holdings[key])
            && r.users == s.users[userId := s.users[userId].(balance := balance)]
            && r.stocks == s.stocks[l.stockId := s.stocks[l.stockId].(quantity :=
                 if side == BUY then s.stocks[l.stockId].quantity - l.quantity else s.stocks[l.stockId].quantity + l.quantity)]
            && r.rounds == s.rounds && r.actions == s.actions
  {
  }

  /**
   * A buy never takes a stock below zero: every line re-reads the live
   * inventory, so the same stock repeated in one request is covered too.
   */
  lemma {:induction false} BuyKeepsInventoryNonNegative(s: State, userId: Id, balance: int, lines: seq<LineItem>, k: Id)
    requires WellFormed(s) && userId in s.users && k in s.stocks && s.stocks[k].quantity >= 0
    ensures var o := BuyLines(s, userId, balance, lines);
            k in o.state.stocks && o.state.stocks[k].quantity >= 0
    decreases |lines|
  {
    if lines != [] && lines[0].stockId in s.stocks && s.stocks[lines[0].stockId].quantity >= lines[0].quantity {
      var l := lines[0];
      var s' := ApplyLine(s, BUY, userId, l, Debit(balance, l));
      LineStock(s, BUY, userId, l, Debit(balance, l), k);
      BuyKeepsInventoryNonNegative(s', userId, Debit(balance, l), lines[1..], k);
      BuyLinesStep(s, s', userId, balance, lines);
    }
  }

  /** One line sets the stored balance to the running balance it is written with. */
  lemma LineBalance(s: State, side: Side, userId: Id, l: LineItem, balance: int)
    requires WellFormed(s) && userId in s.users && l.stockId in s.stocks
    ensures ApplyLine(s, side, userId, l, balance).users[userId].balance == balance
  {
  }

  /** One line moves the inventory of its own stock, down for BUY and up otherwise, and of no other. */
  lemma LineStock(s: State, side: Side, userId: Id, l: LineItem, balance: int, k: Id)
    requires WellFormed(s) && userId in s.users && l.stockId in s.stocks && k in s.stocks
    ensures ApplyLine(s, side, userId, l, balance).stocks[k].quantity ==
            s.stocks[k].quantity + (if l.stockId != k then 0 else if side == BUY then -l.quantity else l.quantity)
  {
  }

  /** The amounts of one more applied line: the first line's, then those of the tail. */
  lemma CostPrefix(lines: seq<LineItem>, n: nat)
    requires n < |lines|
    ensures Cost(lines[..n + 1]) == Amount(lines[0]) + Cost(lines[1..][..n])
  {
    PrefixSplit(lines, n);
  }

  /** The units of stock `k` in one more applied line: the first line's, then those of the tail. */
  lemma QtyOfPrefix(lines: seq<LineItem>, n: nat, k: Id)
    requires n < |lines|
    ensures QtyOf(lines[..n + 1], k) == (if lines[0].stockId == k then lines[0].quantity else 0) + QtyOf(lines[1..][..n], k)
  {
    PrefixSplit(lines, n);
  }

  /** The inductive step of `BuyBalance`, for a first line that passes its checks. */
  lemma BuyBalanceStep(s: State, userId: Id, lines: seq<LineItem>)
    requires WellFormed(s) && userId in s.users && lines != []
    requires lines[0].stockId in s.stocks && s.stocks[lines[0].stockId].quantity >= lines[0].quantity
    requires var bal := Debit(s.users[userId].balance, lines[0]);
             var s' := ApplyLine(s, BUY, userId, lines[0], bal);
             var o' := BuyLines(s', userId, bal, lines[1..]);
             o'.state.users[userId].balance == s'.users[userId].balance - Cost(lines[1..][..o'.applied])
    ensures var o := BuyLines(s, userId, s.users[userId].balance, lines);
            o.state.users[userId].balance == s.users[userId].balance - Cost(lines[..o.applied])
  {
    var l := lines[0];
    var bal := Debit(s.users[userId].balance, l);
    var s' := ApplyLine(s, BUY, userId, l, bal);
    BuyLinesStep(s, s', userId, s.users[userId].balance, lines);
    var o' := BuyLines(s', userId, bal, lines[1..]);
    LineBalance(s, BUY, userId, l, bal);
    CostPrefix(lines, o'.applied);
  }

  /** The stored balance drops by the amounts of exactly the lines applied, whatever it was. */
  lemma {:induction false} BuyBalance(s: State, userId: Id, lines: seq<LineItem>)
    requires WellFormed(s) && userId in s.users
    ensures var o := BuyLines(s, userId, s.users[userId].balance, lines);
            o.state.users[userId].balance == s.users[userId].balance - Cost(lines[..o.applied])
    decreases |lines|
  {
    if lines == [] {
      assert lines[..0] == [];
    } else if lines[0].stockId in s.stocks && s.stocks[lines[0].stockId].quantity >= lines[0].quantity {
      var bal := Debit(s.users[userId].balance, lines[0]);
      var s' := ApplyLine(s, BUY, userId, lines[0], bal);
      LineBalance(s, BUY, userId, lines[0], bal);
      BuyBalance(s', userId, lines[1..]);
      BuyBalanceStep(s, userId, lines);
    } else {
      BuyLinesStop(s, userId, s.users[userId].balance, lines);
      assert lines[..0] == [];
    }
  }

  /** The inductive step of `BuyInventory`, for a first line that passes its checks. */
  lemma BuyInventoryStep(s: State, userId: Id, balance: int, lines: seq<LineItem>, k: Id)
    requires WellFormed(s) && userId in s.users && k in s.stocks && lines != []
    requires lines[0].stockId in s.stocks && s.stocks[lines[0].stockId].quantity >= lines[0].quantity
    requires var s' := ApplyLine(s, BUY, userId, lines[0], Debit(balance, lines[0]));
             var o' := BuyLines(s', userId, Debit(balance, lines[0]), lines[1..]);
             o'.state.stocks[k].quantity == s'.stocks[k].quantity - QtyOf(lines[1..][..o'.applied], k)
    ensures var o := BuyLines(s, userId, balance, lines);
            o.state.stocks[k].quantity == s.stocks[k].quantity - QtyOf(lines[..o.applied], k)
  {
    var l := lines[0];
    var s' := ApplyLine(s, BUY, userId, l, Debit(balance, l));
    BuyLinesStep(s, s', userId, balance, lines);
    var o' := BuyLines(s', userId, Debit(balance, l), lines[1..]);
    LineStock(s, BUY, userId, l, Debit(balance, l), k);
    QtyOfPrefix(lines, o'.applied, k);
  }

  /** Each stock's inventory drops by the units of it the applied lines bought. */
  lemma {:induction false} BuyInventory(s: State, userId: Id, balance: int, lines: seq<LineItem>, k: Id)
    requires WellFormed(s) && userId in s.users && k in s.stocks
    ensures var o := BuyLines(s, userId, balance, lines);
            o.state.stocks[k].quantity == s.stocks[k].quantity - QtyOf(lines[..o.applied], k)
    decreases |lines|
  {
    if lines == [] {
      assert lines[..0] == [];
    } else if lines[0].stockId in s.stocks && s.stocks[lines[0].stockId].quantity >= lines[0].quantity {
      var s' := ApplyLine(s, BUY, userId, lines[0], Debit(balance, lines[0]));
      BuyInventory(s', userId, Debit(balance, lines[0]), lines[1..], k);
      BuyInventoryStep(s, userId, balance, lines, k);
    } else {
      BuyLinesStop(s, userId, balance, lines);
      assert lines[..0] == [];
    }
  }

  /** One bought line moves the buyer's holding of its own stock and of no other. */
  lemma BuyLineHeld(s: State, userId: Id, l: LineItem, balance: int, k: Id)
    requires WellFormed(s) && userId in s.users && l.stockId in s.stocks
    ensures Held(ApplyLine(s, BUY, userId, l, balance), userId, k) ==
            Held(s, userId, k) + (if l.stockId == k then l.quantity else 0)
  {
    ApplyLineEffect(s, BUY, userId, l, balance);
  }

  /** The inductive step of `BuyHoldings`, for a first line that passes its checks. */
  lemma BuyHoldingsStep(s: State, userId: Id, balance: int, lines: seq<LineItem>, k: Id)
    requires WellFormed(s) && userId in s.users && lines != []
    requires lines[0].stockId in s.stocks && s.stocks[lines[0].stockId].quantity >= lines[0].quantity
    requires var s' := ApplyLine(s, BUY, userId, lines[0], Debit(balance, lines[0]));
             var o' := BuyLines(s', userId, Debit(balance, lines[0]), lines[1..]);
             Held(o'.state, userId, k) == Held(s', userId, k) + QtyOf(lines[1..][..o'.applied], k)
    ensures var o := BuyLines(s, userId, balance, lines);
            Held(o.state, userId, k) == Held(s, userId, k) + QtyOf(lines[..o.applied], k)
  {
    var l := lines[0];
    var s' := ApplyLine(s, BUY, userId, l, Debit(balance, l));
    BuyLinesStep(s, s', userId, balance, lines);
    var o' := BuyLines(s', userId, Debit(balance, l), lines[1..]);
    BuyLineHeld(s, userId, l, Debit(balance, l), k);
    QtyOfPrefix(lines, o'.applied, k);
  }

  /** The buyer's holding of each stock grows by the units of it the applied lines bought. */
  lemma {:induction false} BuyHoldings(s: State, userId: Id, balance: int, lines: seq<LineItem>, k: Id)
    requires WellFormed(s) && userId in s.users
    ensures var o := BuyLines(s, userId, balance, lines);
            Held(o.state, userId, k) == Held(s, userId, k) + QtyOf(lines[..o.applied], k)
    decreases |lines|
  {
    if lines == [] {
      assert lines[..0] == [];
    } else if lines[0].stockId in s.stocks && s.stocks[lines[0].stockId].quantity >= lines[0].quantity {
      var s' := ApplyLine(s, BUY, userId, lines[0], Debit(balance, lines[0]));
      BuyHoldings(s', userId, Debit(balance, lines[0]), lines[1..], k);
      BuyHoldingsStep(s, userId, balance, lines, k);
    } else {
      BuyLinesStop(s, userId, balance, lines);
      assert lines[..0] == [];
    }
  }

  /** The order rows of one more applied line item, ahead of the rows of the rest. */
  lemma LogStep(before: State, after: State, o: Outcome, o': Outcome, userId: Id, side: Side,
                lines: seq<LineItem>, n: nat)
    requires n < |lines|
    requires after.orders == before.orders +
               [Order(before.nextId, userId, lines[0].stockId, lines[0].quantity, lines[0].price, side)]
    requires after.nextId == before.nextId + 1
    requires o.state == o'.state
    requires o'.state.orders == after.orders + OrdersOf(userId, lines[1..][..n], side, after.nextId)
    requires o'.state.nextId == after.nextId + n
    ensures o.state.orders == before.orders + OrdersOf(userId, lines[..n + 1], side, before.nextId)
    ensures o.state.nextId == before.nextId + (n + 1)
  {
    OrdersOfSnoc(before.orders, userId, lines, side, before.nextId, n);
  }

  /** The inductive step of `BuyAppendsOrders`, for a first line that passes its checks. */
  lemma BuyAppendsStep(s: State, userId: Id, balance: int, lines: seq<LineItem>)
    requires WellFormed(s) && userId in s.users && lines != []
    requires lines[0].stockId in s.stocks && s.stocks[lines[0].stockId].quantity >= lines[0].quantity
    requires var s' := ApplyLine(s, BUY, userId, lines[0], Debit(balance, lines[0]));
             var o' := BuyLines(s', userId, Debit(balance, lines[0]), lines[1..]);
             o'.state.orders == s'.orders + OrdersOf(userId, lines[1..][..o'.applied], BUY, s'.nextId)
             && o'.state.nextId == s'.nextId + o'.applied
    ensures var o := BuyLines(s, userId, balance, lines);
            o.state.orders == s.orders + OrdersOf(userId, lines[..o.applied], BUY, s.nextId)
            && o.state.nextId == s.nextId + o.applied
  {
    var l := lines[0];
    var s' := ApplyLine(s, BUY, userId, l, Debit(balance, l));
    var o' := BuyLines(s', userId, Debit(balance, l), lines[1..]);
    var o := BuyLines(s, userId, balance, lines);
    assert o.state == o'.state && o.applied == o'.applied + 1 by {
      BuyLinesStep(s, s', userId, balance, lines);
    }
    assert s'.orders == s.orders + [Order(s.nextId, userId, l.stockId, l.quantity, l.price, BUY)]
           && s'.nextId == s.nextId + 1 by {
      ApplyLineLog(s, BUY, userId, l, Debit(balance, l));
    }
    LogStep(s, s', o, o', userId, BUY, lines, o'.applied);
  }

  /**
   * The order log only grows: the orders of exactly the applied lines, with
   * consecutive ids, after the orders that were there.
   */
  lemma {:induction false} BuyAppendsOrders(s: State, userId: Id, balance: int, lines: seq<LineItem>)
    requires WellFormed(s) && userId in s.users
    ensures var o := BuyLines(s, userId, balance, lines);
            o.state.orders == s.orders + OrdersOf(userId, lines[..o.applied], BUY, s.nextId)
            && o.state.nextId == s.nextId + o.applied
    decreases |lines|
  {
    if lines == [] {
      assert lines[..0] == [];
    } else if lines[0].stockId in s.stocks && s.stocks[lines[0].stockId].quantity >= lines[0].quantity {
      var s' := ApplyLine(s, BUY, userId, lines[0], Debit(balance, lines[0]));
      BuyAppendsOrders(s', userId, Debit(balance, lines[0]), lines[1..]);
      BuyAppendsStep(s, userId, balance, lines);
    } else {
      BuyLinesStop(s, userId, balance, lines);
      assert lines[..0] == [];
    }
  }

  /** Why a buy stops at line `l` in state `t`: its stock is missing, or has fewer units than asked. */
  predicate FailsOn(t: State, l: LineItem, e: OrderError) {
    && e == (if l.stockId !in t.stocks then StockNotFound else InsufficientInventory)
    && (l.stockId in t.stocks ==> t.stocks[l.stockId].quantity < l.quantity)
  }

  /**
   * No rollback: a buy that fails leaves exactly the writes of the lines
   * before the failing one, and the failing line's stock is missing or short
   * in that state.
   */
  predicate StopsAtFirstFailure(s: State, userId: Id, balance: int, lines: seq<LineItem>)
    requires WellFormed(s) && userId in s.users
  {
    var o := BuyLines(s, userId, balance, lines);
    o.failed.Some? ==>
      && o.applied < |lines|
      && BuyLines(s, userId, balance, lines[..o.applied]) == Outcome(o.state, None, o.applied)
      && FailsOn(o.state, lines[o.applied], o.failed.value)
  }

  /** A failed buy keeps the writes of the lines before the failing one; see `StopsAtFirstFailure`. */
  lemma BuyStopsAtFirstFailure(s: State, userId: Id, balance: int, lines: seq<LineItem>)
    requires WellFormed(s) && userId in s.users
    ensures StopsAtFirstFailure(s, userId, balance, lines)
  {
    BuyFailureCause(s, userId, balance, lines);
    BuyFailedPrefix(s, userId, balance, lines);
  }

  /** A failed buy names the line it stopped at, checked against the state the earlier lines left. */
  lemma {:induction false} BuyFailureCause(s: State, userId: Id, balance: int, lines: seq<LineItem>)
    requires WellFormed(s) && userId in s.users
    ensures var o := BuyLines(s, userId, balance, lines);
            o.failed.Some? ==> o.applied < |lines| && FailsOn(o.state, lines[o.applied], o.failed.value)
    decreases |lines|
  {
    if lines == [] {
    } else if lines[0].stockId in s.stocks && s.stocks[lines[0].stockId].quantity >= lines[0].quantity {
      var l := lines[0];
      var s' := ApplyLine(s, BUY, userId, l, Debit(balance, l));
      BuyFailureCause(s', userId, Debit(balance, l), lines[1..]);
      var o' := BuyLines(s', userId, Debit(balance, l), lines[1..]);
      var o := BuyLines(s, userId, balance, lines);
      assert o.state == o'.state && o.failed == o'.failed && o.applied == o'.applied + 1 by {
        BuyLinesStep(s, s', userId, balance, lines);
      }
      if o.failed.Some? {
        assert lines[1..][o'.applied] == lines[o.applied];
      }
    } else {
      BuyLinesStop(s, userId, balance, lines);
    }
  }

  /** Replaying a failed buy over just the lines it applied succeeds and reaches the same state. */
  lemma {:induction false} BuyFailedPrefix(s: State, userId: Id, balance: int, lines: seq<LineItem>)
    requires WellFormed(s) && userId in s.users
    ensures var o := BuyLines(s, userId, balance, lines);
            o.failed.Some? ==> BuyLines(s, userId, balance, lines[..o.applied]) == Outcome(o.state, None, o.applied)
    decreases |lines|
  {
    if lines == [] {
    } else if lines[0].stockId in s.stocks && s.stocks[lines[0].stockId].quantity >= lines[0].quantity {
      var l := lines[0];
      var s' := ApplyLine(s, BUY, userId, l, Debit(balance, l));
      BuyFailedPrefix(s', userId, Debit(balance, l), lines[1..]);
      var o' := BuyLines(s', userId, Debit(balance, l), lines[1..]);
      var o := BuyLines(s, userId, balance, lines);
      assert o.state == o'.state && o.failed == o'.failed && o.applied == o'.applied + 1 by {
        BuyLinesStep(s, s', userId, balance, lines);
      }
      if o.failed.Some? {
        BuyPrefixStep(s, userId, balance, lines, o'.applied, o'.state);
      }
    } else {
      BuyLinesStop(s, userId, balance, lines);
      assert lines[..0] == [];
    }
  }

  /** A clean run over the first `m` lines after a passing first line is a clean run over `m + 1` lines. */
  lemma BuyPrefixStep(s: State, userId: Id, balance: int, lines: seq<LineItem>, m: nat, t: State)
    requires WellFormed(s) && userId in s.users && m < |lines|
    requires lines[0].stockId in s.stocks && s.stocks[lines[0].stockId].quantity >= lines[0].quantity
    requires var s' := ApplyLine(s, BUY, userId, lines[0], Debit(balance, lines[0]));
             BuyLines(s', userId, Debit(balance, lines[0]), lines[1..][..m]) == Outcome(t, None, m)
    ensures BuyLines(s, userId, balance, lines[..m + 1]) == Outcome(t, None, m + 1)
  {
    var s' := ApplyLine(s, BUY, userId, lines[0], Debit(balance, lines[0]));
    PrefixSplit(lines, m);
    BuyLinesStep(s, s', userId, balance, lines[..m + 1]);
  }

  /** The inductive step of `SellBalance`, for a first line whose stock exists. */
  lemma SellBalanceStep(s: State, userId: Id, lines: seq<LineItem>)
    requires WellFormed(s) && userId in s.users && lines != [] && lines[0].stockId in s.stocks
    requires var bal := Credit(s.users[userId].balance, lines[0]);
             var s' := ApplyLine(s, SELL, userId, lines[0], bal);
             var o' := SellLines(s', userId, bal, lines[1..]);
             o'.state.users[userId].balance == s'.users[userId].balance + Cost(lines[1..][..o'.applied])
    ensures var o := SellLines(s, userId, s.users[userId].balance, lines);
            o.state.users[userId].balance == s.users[userId].balance + Cost(lines[..o.applied])
  {
    var l := lines[0];
    var bal := Credit(s.users[userId].balance, l);
    var s' := ApplyLine(s, SELL, userId, l, bal);
    SellLinesStep(s, s', userId, s.users[userId].balance, lines);
    var o' := SellLines(s', userId, bal, lines[1..]);
    LineBalance(s, SELL, userId, l, bal);
    CostPrefix(lines, o'.applied);
  }

  /** The stored balance rises by the amounts of exactly the lines applied. */
  lemma {:induction false} SellBalance(s: State, userId: Id, lines: seq<LineItem>)
    requires WellFormed(s) && userId in s.users
    ensures var o := SellLines(s, userId, s.users[userId].balance, lines);
            o.state.users[userId].balance == s.users[userId].balance + Cost(lines[..o.applied])
    decreases |lines|
  {
    if lines == [] {
      assert lines[..0] == [];
    } else if lines[0].stockId in s.stocks {
      var bal := Credit(s.users[userId].balance, lines[0]);
      var s' := ApplyLine(s, SELL, userId, lines[0], bal);
      LineBalance(s, SELL, userId, lines[0], bal);
      SellBalance(s', userId, lines[1..]);
      SellBalanceStep(s, userId, lines);
    } else {
      SellLinesStop(s, userId, s.users[userId].balance, lines);
      assert lines[..0] == [];
    }
  }

  /** The inductive step of `SellInventory`, for a first line whose stock exists. */
  lemma SellInventoryStep(s: State, userId: Id, balance: int, lines: seq<LineItem>, k: Id)
    requires WellFormed(s) && userId in s.users && k in s.stocks && lines != [] && lines[0].stockId in s.stocks
    requires var s' := ApplyLine(s, SELL, userId, lines[0], Credit(balance, lines[0]));
             var o' := SellLines(s', userId, Credit(balance, lines[0]), lines[1..]);
             o'.state.stocks[k].quantity == s'.stocks[k].quantity + QtyOf(lines[1..][..o'.applied], k)
    ensures var o := SellLines(s, userId, balance, lines);
            o.state.stocks[k].quantity == s.stocks[k].quantity + QtyOf(lines[..o.applied], k)
  {
    var l := lines[0];
    var s' := ApplyLine(s, SELL, userId, l, Credit(balance, l));
    var o' := SellLines(s', userId, Credit(balance, l), lines[1..]);
    var o := SellLines(s, userId, balance, lines);
    assert o.state == o'.state && o.applied == o'.applied + 1 by {
      SellLinesStep(s, s', userId, balance, lines);
    }
    LineStock(s, SELL, userId, l, Credit(balance, l), k);
    QtyOfPrefix(lines, o'.applied, k);
  }

  /** Each stock's inventory rises by the units of it the applied lines sold. */
  lemma {:induction false} SellInventory(s: State, userId: Id, balance: int, lines: seq<LineItem>, k: Id)
    requires WellFormed(s) && userId in s.users && k in s.stocks
    ensures var o := SellLines(s, userId, balance, lines);
            o.state.stocks[k].quantity == s.stocks[k].quantity + QtyOf(lines[..o.applied], k)
    decreases |lines|
  {
    if lines == [] {
      assert lines[..0] == [];
    } else if lines[0].stockId in s.stocks {
      var s' := ApplyLine(s, SELL, userId, lines[0], Credit(balance, lines[0]));
      SellInventory(s', userId, Credit(balance, lines[0]), lines[1..], k);
      SellInventoryStep(s, userId, balance, lines, k);
    } else {
      SellLinesStop(s, userId, balance, lines);
      assert lines[..0] == [];
    }
  }

  /** One sold line moves the seller's existing holding of its own stock down, and of no other. */
  lemma SellLineHeld(s: State, userId: Id, l: LineItem, balance: int, k: Id)
    requires WellFormed(s) && userId in s.users && l.stockId in s.stocks && (userId, k) in s.holdings
    ensures var r := ApplyLine(s, SELL, userId, l, balance);
            (userId, k) in r.holdings && Held(r, userId, k) == Held(s, userId, k) - (if l.stockId == k then l.quantity else 0)
  {
    ApplyLineEffect(s, SELL, userId, l, balance);
  }

  /** The inductive step of `SellHoldings`, for a first line whose stock exists. */
  lemma SellHoldingsStep(s: State, userId: Id, balance: int, lines: seq<LineItem>, k: Id)
    requires WellFormed(s) && userId in s.users && (userId, k) in s.holdings && lines != [] && lines[0].stockId in s.stocks
    requires var s' := ApplyLine(s, SELL, userId, lines[0], Credit(balance, lines[0]));
             var o' := SellLines(s', userId, Credit(balance, lines[0]), lines[1..]);
             (userId, k) in s'.holdings ==>
               (userId, k) in o'.state.holdings && Held(o'.state, userId, k) == Held(s', userId, k) - QtyOf(lines[1..][..o'.applied], k)
    ensures var o := SellLines(s, userId, balance, lines);
            (userId, k) in o.state.holdings && Held(o.state, userId, k) == Held(s, userId, k) - QtyOf(lines[..o.applied], k)
  {
    var l := lines[0];
    var s' := ApplyLine(s, SELL, userId, l, Credit(balance, l));
    var o' := SellLines(s', userId, Credit(balance, l), lines[1..]);
    var o := SellLines(s, userId, balance, lines);
    assert o.state == o'.state && o.applied == o'.applied + 1 by {
      SellLinesStep(s, s', userId, balance, lines);
    }
    SellLineHeld(s, userId, l, Credit(balance, l), k);
    QtyOfPrefix(lines, o'.applied, k);
  }

  /**
   * The seller's existing holding of each stock drops by the units of it the
   * applied lines sold; a line whose stock is missing writes only its order row.
   */
  lemma {:induction false} SellHoldings(s: State, userId: Id, balance: int, lines: seq<LineItem>, k: Id)
    requires WellFormed(s) && userId in s.users
    ensures var o := SellLines(s, userId, balance, lines);
            (userId, k) in s.holdings ==>
              (userId, k) in o.state.holdings && Held(o.state, userId, k) == Held(s, userId, k) - QtyOf(lines[..o.applied], k)
    decreases |lines|
  {
    if lines == [] {
      assert lines[..0] == [];
    } else if lines[0].stockId in s.stocks {
      var s' := ApplyLine(s, SELL, userId, lines[0], Credit(balance, lines[0]));
      SellHoldings(s', userId, Credit(balance, lines[0]), lines[1..], k);
      if (userId, k) in s.holdings {
        SellHoldingsStep(s, userId, balance, lines, k);
      }
    } else {
      SellLinesStop(s, userId, balance, lines);
      assert lines[..0] == [];
    }
  }

  /** How many order rows a sell run appends: one per applied line, one more when it failed. */
  function Appended(o: Outcome): nat {
    o.applied + (if o.failed.Some? then 1 else 0)
  }

  /**
   * The order log of a sell: the orders of the applied lines, plus one more
   * for the line whose stock did not exist when the request failed.
   */
  lemma {:induction false} SellAppendsOrders(s: State, userId: Id, balance: int, lines: seq<LineItem>)
    requires WellFormed(s) && userId in s.users
    ensures var o := SellLines(s, userId, balance, lines);
            Appended(o) <= |lines|
            && o.state.orders == s.orders + OrdersOf(userId, lines[..Appended(o)], SELL, s.nextId)
            && o.state.nextId == s.nextId + Appended(o)
    decreases |lines|
  {
    if lines == [] {
      assert lines[..0] == [];
    } else if lines[0].stockId in s.stocks {
      var l := lines[0];
      var s' := ApplyLine(s, SELL, userId, l, Credit(balance, l));
      SellAppendsOrders(s', userId, Credit(balance, l), lines[1..]);
      var o' := SellLines(s', userId, Credit(balance, l), lines[1..]);
      var o := SellLines(s, userId, balance, lines);
      assert o.state == o'.state && Appended(o) == Appended(o') + 1 by {
        SellLinesStep(s, s', userId, balance, lines);
      }
      assert s'.orders == s.orders + [Order(s.nextId, userId, l.stockId, l.quantity, l.price, SELL)]
             && s'.nextId == s.nextId + 1 by {
        ApplyLineLog(s, SELL, userId, l, Credit(balance, l));
      }
      LogStep(s, s', o, o', userId, SELL, lines, Appended(o'));
    } else {
      SellLinesStop(s, userId, balance, lines);
      assert lines[..1][1..] == [];
    }
  }

  /** A sell line whose client entry is missing or too small rejects the request before any write. */
  lemma SellChecksBeforeWriting(s: State, req: OrderRequest, i: nat)
    requires WellFormed(s) && req.userId in s.users && req.kind == "sell"
    requires i < |req.orders| && !Covers(req.userStocks, req.orders[i])
    ensures ApplyOrder(s, req) == Outcome(s, Some(InsufficientHoldings), 0)
  {
  }

  /**
   * The worked example: balance 1000 buying 3 of a stock priced 100 with 5 in
   * stock ends with balance 700, inventory 2 and a new holding of 3.
   */
  lemma BuyExample()
    ensures var s := State(map[1 := User(1, "kim", "pw", 1000)], map[2 := Stock(2, "ACME", 100, 100, 5)],
                           map[], [], map[], [], 3);
            var req := OrderRequest("buy", 1, [LineItem(2, 3, 100)], 300, 1000, []);
            var o := ApplyOrder(s, req);
            && o.failed.None?
            && o.state.users[1].balance == 700
            && o.state.stocks[2].quantity == 2
            && (1, 2) in o.state.holdings && o.state.holdings[(1, 2)].quantity == 3
            && o.state.orders == [Order(3, 1, 2, 3, 100, BUY)]
  {
    var s := State(map[1 := User(1, "kim", "pw", 1000)], map[2 := Stock(2, "ACME", 100, 100, 5)],
                   map[], [], map[], [], 3);
    var l := LineItem(2, 3, 100);
    assert [l][1..] == [];
    ApplyLineEffect(s, BUY, 1, l, Debit(1000, l));
  }

  /**
   * The funds guard reads the balance the client sends, so a request that
   * passes it can leave the stored balance negative.
   */
  lemma BuyCanOverdraw()
    ensures var s := State(map[1 := User(1, "kim", "pw", 0)], map[2 := Stock(2, "ACME", 100, 100, 5)],
                           map[], [], map[], [], 3);
            var req := OrderRequest("buy", 1, [LineItem(2, 1, 100)], 0, 0, []);
            var o := ApplyOrder(s, req);
            o.failed.None? && o.state.users[1].balance == -100
  {
    var s := State(map[1 := User(1, "kim", "pw", 0)], map[2 := Stock(2, "ACME", 100, 100, 5)],
                   map[], [], map[], [], 3);
    var l := LineItem(2, 1, 100);
    assert [l][1..] == [];
    ApplyLineEffect(s, BUY, 1, l, Debit(0, l));
  }
}
