/**
 * The database as one mutable object holding the six tables. Each write of
 * the repositories is a method that changes the tables in place; its contract
 * gives the new state as the matching function of `Repository` or `Rounds`.
 */
module Store {
  import opened Wrappers
  import opened Schema
  import Repository
  import Rounds

  class Db {
    var users: map<Id, User>
    var stocks: map<Id, Stock>
    var holdings: map<(Id, Id), UserStock>
    var orders: seq<Order>
    var rounds: map<Id, RoundInfo>
    var actions: seq<RoundAction>
    var nextId: Id
    /** The column default of User.balance. */
    const defaultBalance: int

    function View(): State
      reads this
    {
      State(users, stocks, holdings, orders, rounds, actions, nextId)
    }

    ghost predicate Valid()
      reads this
    {
      WellFormed(View())
    }

    constructor (init: State, defaultBalance: int)
      requires WellFormed(init)
      ensures Valid() && View() == init && this.defaultBalance == defaultBalance
    {
      users, stocks, holdings, orders := init.users, init.stocks, init.holdings, init.orders;
      rounds, actions, nextId := init.rounds, init.actions, init.nextId;
      this.defaultBalance := defaultBalance;
    }

    /**
     * `listOrders`: every row of the order log, each once. The query has no
     * ordering; the rows come back as stored, one order the database may use.
     */
    function ListOrders(): (r: seq<Order>)
      reads this
      requires Valid()
      ensures multiset(r) == multiset(orders)
      ensures forall i, j :: 0 <= i < j < |r| ==> r[i].id != r[j].id
    {
      orders
    }

    method AddUser(name: string, password: string) returns (user: User)
      requires Valid()
      modifies this
      ensures Valid()
      ensures View() == Repository.AddUser(old(View()), name, password, defaultBalance)
      ensures user == users[old(nextId)]
    {
      user := User(nextId, name, password, defaultBalance);
      users := users[nextId := user];
      nextId := nextId + 1;
    }

    method UpdateUserStock(side: Side, userId: Id, stockId: Id, quantity: int)
      requires Valid() && userId in users && stockId in stocks
      modifies this
      ensures Valid()
      ensures View() == Repository.UpdateUserStock(old(View()), side, userId, stockId, quantity)
    {
      var key := (userId, stockId);
      if key in holdings {
        var row := holdings[key];
        holdings := holdings[key := row.(quantity := if side == BUY then row.quantity + quantity
                                                     else row.quantity - quantity)];
      } else {
        holdings := holdings[key := UserStock(userId, stockId, quantity)];
      }
    }

    method UpdateUserBalance(id: Id, balance: int)
      requires Valid() && id in users
      modifies this
      ensures Valid()
      ensures View() == Repository.UpdateUserBalance(old(View()), id, balance)
    {
      users := users[id := users[id].(balance := balance)];
    }

    method UpdateStock(id: Id, price: int, prevPrice: int)
      requires Valid() && id in stocks
      modifies this
      ensures Valid()
      ensures View() == Repository.UpdateStock(old(View()), id, price, prevPrice)
    {
      stocks := stocks[id := stocks[id].(price := price, prevPrice := prevPrice)];
    }

    method UpdateStockQuantity(id: Id, side: Side, quantity: int)
      requires Valid() && id in stocks
      modifies this
      ensures Valid()
      ensures View() == Repository.UpdateStockQuantity(old(View()), id, side, quantity)
    {
      if side == BUY {
        stocks := stocks[id := stocks[id].(quantity := stocks[id].quantity - quantity)];
      } else {
        stocks := stocks[id := stocks[id].(quantity := stocks[id].quantity + quantity)];
      }
    }

    method AddOrder(userId: Id, stockId: Id, quantity: int, price: int, side: Side)
      requires Valid()
      modifies this
      ensures Valid()
      ensures View() == Repository.AddOrder(old(View()), userId, stockId, quantity, price, side)
    {
      orders := orders + [Order(nextId, userId, stockId, quantity, price, side)];
      nextId := nextId + 1;
    }

    /** `startRound`: stamps startedAt on the lowest-numbered unstarted round, if there is one. */
    method StartRound(now: int) returns (r: Option<RoundInfo>)
      requires Valid()
      modifies this
      ensures Valid()
      ensures r.None? ==> View() == old(View()) && forall k :: k in rounds ==> !Rounds.Unstarted(rounds[k])
      ensures r.Some? ==> Rounds.LowestIn(old(rounds), r.value.id, Rounds.ToStart)
                          && View() == Rounds.StampRound(old(View()), r.value.id, Rounds.ToStart, now)
                          && r.value == rounds[r.value.id]
    {
      var id := Rounds.FindLowest(rounds, Rounds.ToStart);
      if id.None? {
        return None;
      }
      rounds := rounds[id.value := rounds[id.value].(startedAt := Some(now))];
      r := Some(rounds[id.value]);
    }

    /** `endRound`: stamps endedAt on the lowest-numbered open round, if there is one. */
    method EndRound(now: int) returns (r: Option<RoundInfo>)
      requires Valid()
      modifies this
      ensures Valid()
      ensures r.None? ==> View() == old(View()) && forall k :: k in rounds ==> !Rounds.Open(rounds[k])
      ensures r.Some? ==> Rounds.LowestIn(old(rounds), r.value.id, Rounds.ToEnd)
                          && View() == Rounds.StampRound(old(View()), r.value.id, Rounds.ToEnd, now)
                          && r.value == rounds[r.value.id]
    {
      var id := Rounds.FindLowest(rounds, Rounds.ToEnd);
      if id.None? {
        return None;
      }
      rounds := rounds[id.value := rounds[id.value].(endedAt := Some(now))];
      r := Some(rounds[id.value]);
    }

    method CreateRound(roundNumber: int)
      requires Valid()
      modifies this
      ensures Valid()
      ensures View() == Rounds.CreateRound(old(View()), roundNumber)
    {
      rounds := rounds[nextId := RoundInfo(nextId, roundNumber, None, None)];
      nextId := nextId + 1;
    }

    method SaveRoundAction(stockId: Id, diff: int, roundInfoId: Id, price: int)
      requires Valid() && stockId in stocks && roundInfoId in rounds
      modifies this
      ensures Valid()
      ensures View() == Rounds.SaveRoundAction(old(View()), stockId, diff, roundInfoId, price)
    {
      actions := actions + [RoundAction(nextId, stockId, roundInfoId, price, diff, None)];
      nextId := nextId + 1;
    }

    method AssignActions(ids: set<Id>, userId: Id)
      requires Valid()
      modifies this
      ensures Valid()
      ensures View() == Rounds.AssignActions(old(View()), ids, userId)
    {
      actions := seq(|actions|, i requires 0 <= i < |actions| reads this =>
                   if actions[i].id in ids then actions[i].(userId := Some(userId)) else actions[i]);
    }
  }
}
