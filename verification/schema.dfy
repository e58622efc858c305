/**
 * The tables of the trading game and the shape every stored state keeps.
 * Row ids are generated by the database; the model draws them from a counter.
 */
module Schema {
  import opened Wrappers

  type Id = nat

  datatype Side = BUY | SELL

  datatype User = User(id: Id, name: string, password: string, balance: int)

  datatype Stock = Stock(id: Id, name: string, price: int, prevPrice: int, quantity: int)

  /** A holding; the table is keyed by the pair (userId, stockId). */
  datatype UserStock = UserStock(userId: Id, stockId: Id, quantity: int)

  datatype Order = Order(id: Id, userId: Id, stockId: Id, quantity: int, price: int, side: Side)

  /** `startedAt` and `endedAt` are abstract clock ticks; `None` is SQL null. */
  datatype RoundInfo = RoundInfo(id: Id, roundNumber: int, startedAt: Option<int>, endedAt: Option<int>)

  datatype RoundAction = RoundAction(id: Id, stockId: Id, roundInfoId: Id, price: int, diff: int, userId: Option<Id>)

  /** A round action joined with its stock row, as the round repository returns it. */
  datatype ActionWithStock = ActionWithStock(action: RoundAction, stock: Stock)

  /** The whole database. */
  datatype State = State(
    users: map<Id, User>,
    stocks: map<Id, Stock>,
    holdings: map<(Id, Id), UserStock>,
    orders: seq<Order>,
    rounds: map<Id, RoundInfo>,
    actions: seq<RoundAction>,
    nextId: Id)

  /** The ids of the order log are distinct and were drawn from the counter. */
  ghost predicate OrderIds(orders: seq<Order>, nextId: Id) {
    && (forall i :: 0 <= i < |orders| ==> orders[i].id < nextId)
    && (forall i, j :: 0 <= i < j < |orders| ==> orders[i].id != orders[j].id)
  }

  /** The ids of the round actions are distinct and were drawn from the counter. */
  ghost predicate ActionIds(actions: seq<RoundAction>, nextId: Id) {
    && (forall i :: 0 <= i < |actions| ==> actions[i].id < nextId)
    && (forall i, j :: 0 <= i < j < |actions| ==> actions[i].id != actions[j].id)
  }

  /**
   * Keys agree with row ids, generated ids are distinct and below the
   * counter, and the relations of UserStock and RoundAction point at
   * existing rows.
   */
  ghost predicate WellFormed(s: State) {
    && OrderIds(s.orders, s.nextId)
    && ActionIds(s.actions, s.nextId)
    && (forall k :: k in s.users ==> s.users[k].id == k && k < s.nextId)
    && (forall k :: k in s.stocks ==> s.stocks[k].id == k)
    && (forall k :: k in s.holdings ==>
          s.holdings[k].userId == k.0 && s.holdings[k].stockId == k.1 && k.0 in s.users && k.1 in s.stocks)
    && (forall k :: k in s.rounds ==> s.rounds[k].id == k && k < s.nextId)
    && (forall i :: 0 <= i < |s.actions| ==>
          s.actions[i].stockId in s.stocks && s.actions[i].roundInfoId in s.rounds)
  }
}
