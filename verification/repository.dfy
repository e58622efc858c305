/**
 * The writes and key lookups of the user, stock and order repositories, as
 * functions from one database state to the next. `Store.Db` performs them in
 * place; the route handlers are specified with them.
 */
module Repository {
  import opened Wrappers
  import opened Schema

  // ---------------------------------------------------------------- users

  /** `addUser`: inserts one user; the balance is the column default. */
  function AddUser(s: State, name: string, password: string, defaultBalance: int): (r: State)
    requires WellFormed(s)
    ensures WellFormed(r)
    ensures s.nextId !in s.users && r.users.Keys == s.users.Keys + {s.nextId}
    ensures r.users[s.nextId].name == name && r.users[s.nextId].password == password
    ensures forall k :: k in s.users ==> r.users[k] == s.users[k]
    ensures r.(users := s.users, nextId := s.nextId) == s
  {
    s.(users := s.users[s.nextId := User(s.nextId, name, password, defaultBalance)], nextId := s.nextId + 1)
  }

  /**
   * `updateUserStock`: the (userId, stockId) holding gains `quantity` on BUY and
   * loses it on any other side; a missing holding is created with `quantity`
   * whatever the side.
   */
  function UpdateUserStock(s: State, side: Side, userId: Id, stockId: Id, quantity: int): (r: State)
    requires WellFormed(s) && userId in s.users && stockId in s.stocks
    ensures WellFormed(r)
    ensures r.(holdings := s.holdings) == s
  {
    var q := HeldAfter(s.holdings, side, userId, stockId, quantity);
    s.(holdings := s.holdings[(userId, stockId) := UserStock(userId, stockId, q)])
  }

  /** The quantity `updateUserStock` writes to the (userId, stockId) row. */
  function HeldAfter(holdings: map<(Id, Id), UserStock>, side: Side, userId: Id, stockId: Id, quantity: int): int {
    var key := (userId, stockId);
    if key !in holdings then quantity
    else if side == BUY then holdings[key].quantity + quantity
    else holdings[key].quantity - quantity
  }

  /**
   * `updateUserStock` touches one holding row: an existing (userId, stockId)
   * row gains `quantity` on BUY and loses it on any other side, a missing one
   * is created with `quantity` whatever the side, and every other row stays.
   */
  lemma UpdateUserStockEffect(s: State, side: Side, userId: Id, stockId: Id, quantity: int)
    requires WellFormed(s) && userId in s.users && stockId in s.stocks
    ensures var r := UpdateUserStock(s, side, userId, stockId, quantity);
            && r.holdings.Keys == s.holdings.Keys + {(userId, stockId)}
            && ((userId, stockId) in s.holdings ==>
                  r.holdings[(userId, stockId)].quantity ==
                    s.holdings[(userId, stockId)].quantity + (if side == BUY then quantity else -quantity))
            && ((userId, stockId) !in s.holdings ==> r.holdings[(userId, stockId)].quantity == quantity)
            && (forall k :: k in s.holdings && k != (userId, stockId) ==> r.holdings[k] == s.holdings[k])
  {
  }

  /** `updateUserBalance`: overwrites one user's balance. */
  function UpdateUserBalance(s: State, id: Id, balance: int): (r: State)
    requires WellFormed(s) && id in s.users
    ensures WellFormed(r)
    ensures r.users.Keys == s.users.Keys
    ensures r.users[id].balance == balance
    ensures r.users[id].name == s.users[id].name && r.users[id].password == s.users[id].password
    ensures forall k :: k in s.users && k != id ==> r.users[k] == s.users[k]
    ensures r.(users := s.users) == s
  {
    s.(users := s.users[id := s.users[id].(balance := balance)])
  }

  /** `getUserById`: the user with that id, or none. */
  function GetUserById(s: State, id: Id): (r: Option<User>)
    requires WellFormed(s)
    ensures r.Some? <==> id in s.users
    ensures r.Some? ==> r.value.id == id && s.users[id] == r.value
  {
    if id in s.users then Some(s.users[id]) else None
  }

  /** Two users may share a name: `addUser` performs no uniqueness check. */
  lemma AddUserAllowsDuplicateNames(s: State, name: string, password: string, defaultBalance: int, other: Id)
    requires WellFormed(s) && other in s.users && s.users[other].name == name
    ensures var r := AddUser(s, name, password, defaultBalance);
            other != s.nextId && r.users[other].name == name && r.users[s.nextId].name == name
  {
  }

  // ---------------------------------------------------------------- stocks

  /** `getStockById`: the stock with that id, or none. */
  function GetStockById(s: State, id: Id): (r: Option<Stock>)
    requires WellFormed(s)
    ensures r.Some? <==> id in s.stocks
    ensures r.Some? ==> r.value.id == id && s.stocks[id] == r.value
  {
    if id in s.stocks then Some(s.stocks[id]) else None
  }

  /** `updateStock`: sets price and prevPrice of one stock. */
  function UpdateStock(s: State, id: Id, price: int, prevPrice: int): (r: State)
    requires WellFormed(s) && id in s.stocks
    ensures WellFormed(r)
    ensures r.stocks.Keys == s.stocks.Keys
    ensures r.stocks[id].price == price && r.stocks[id].prevPrice == prevPrice
    ensures r.stocks[id].quantity == s.stocks[id].quantity && r.stocks[id].name == s.stocks[id].name
    ensures forall k :: k in s.stocks && k != id ==> r.stocks[k] == s.stocks[k]
    ensures r.(stocks := s.stocks) == s
  {
    s.(stocks := s.stocks[id := s.stocks[id].(price := price, prevPrice := prevPrice)])
  }

  /** `updateStockQuantity`: BUY takes `quantity` out of the inventory, any other side puts it back. */
  function UpdateStockQuantity(s: State, id: Id, side: Side, quantity: int): (r: State)
    requires WellFormed(s) && id in s.stocks
    ensures WellFormed(r)
    ensures r.stocks.Keys == s.stocks.Keys
    ensures r.stocks[id].quantity == s.stocks[id].quantity + (if side == BUY then -quantity else quantity)
    ensures r.stocks[id] == s.stocks[id].(quantity := r.stocks[id].quantity)
    ensures forall k :: k in s.stocks && k != id ==> r.stocks[k] == s.stocks[k]
    ensures r.(stocks := s.stocks) == s
  {
    var q := InventoryAfter(s.stocks[id].quantity, side, quantity);
    s.(stocks := s.stocks[id := s.stocks[id].(quantity := q)])
  }

  /** The quantity `updateStockQuantity` writes: BUY subtracts, any other side adds. */
  function InventoryAfter(inventory: int, side: Side, quantity: int): int {
    if side == BUY then inventory - quantity else inventory + quantity
  }

  /** A BUY and then a SELL of the same amount leave the stock table as it was. */
  lemma BuyThenSellRestoresStock(s: State, id: Id, quantity: int)
    requires WellFormed(s) && id in s.stocks
    ensures UpdateStockQuantity(UpdateStockQuantity(s, id, BUY, quantity), id, SELL, quantity) == s
  {
    var r := UpdateStockQuantity(UpdateStockQuantity(s, id, BUY, quantity), id, SELL, quantity);
    assert r.stocks == s.stocks;
  }

  // ---------------------------------------------------------------- orders

  /**
   * `addOrder`: appends exactly one order carrying the arguments; there is no
   * check on the sign of quantity or price.
   */
  function AddOrder(s: State, userId: Id, stockId: Id, quantity: int, price: int, side: Side): (r: State)
    requires WellFormed(s)
    ensures WellFormed(r)
    ensures |r.orders| == |s.orders| + 1 && r.orders[..|s.orders|] == s.orders
    ensures var o := r.orders[|s.orders|];
            o.userId == userId && o.stockId == stockId && o.quantity == quantity && o.price == price && o.side == side
    ensures r.(orders := s.orders, nextId := s.nextId) == s
  {
    s.(orders := s.orders + [Order(s.nextId, userId, stockId, quantity, price, side)], nextId := s.nextId + 1)
  }
}
