/**
 * The settlement script: end the open round, then move every stock to the
 * price its action in the following round carries.
 */
module Settlement {
  import opened Wrappers
  import opened Schema
  import Repository
  import Rounds
  import opened Store

  /** What the script did. */
  datatype FinishResult =
    | NoRoundToEnd
    | NoActions(ended: RoundInfo)
    | Settled(ended: RoundInfo, count: nat)

  /** Every listed action points at an existing stock. */
  predicate Targets(s: State, acts: seq<ActionWithStock>) {
    forall x :: x in acts ==> x.action.stockId in s.stocks
  }

  /**
   * The update loop: each action in turn sets its stock's price to the
   * action's price and its prevPrice to the stock price read with the action.
   */
  function Settle(s: State, acts: seq<ActionWithStock>): (r: State)
    requires WellFormed(s) && Targets(s, acts)
    ensures WellFormed(r) && r.stocks.Keys == s.stocks.Keys
    ensures r.(stocks := s.stocks) == s
    decreases |acts|
  {
    if acts == [] then s
    else
      var x := acts[|acts| - 1];
      var before := Settle(s, acts[..|acts| - 1]);
      Repository.UpdateStock(before, x.action.stockId, x.action.price, x.stock.price)
  }

  /** The last listed action for stock `k`, if any: the one whose write survives. */
  function LastFor(acts: seq<ActionWithStock>, k: Id): (r: Option<ActionWithStock>)
    ensures r.None? <==> forall i :: 0 <= i < |acts| ==> acts[i].action.stockId != k
    ensures r.Some? ==> exists i :: 0 <= i < |acts| && acts[i] == r.value && r.value.action.stockId == k
                          && forall j :: i < j < |acts| ==> acts[j].action.stockId != k
    decreases |acts|
  {
    if acts == [] then None
    else if acts[|acts| - 1].action.stockId == k then Some(acts[|acts| - 1])
    else
      var r := LastFor(acts[..|acts| - 1], k);
      FrontAgrees(acts);
      r
  }

  /** The list without its last action agrees with the list at every position it has. */
  lemma FrontAgrees(acts: seq<ActionWithStock>)
    requires acts != []
    ensures forall i :: 0 <= i < |acts| - 1 ==> acts[..|acts| - 1][i] == acts[i]
  {
  }

  /**
   * A stock with no action keeps its row; a stock with actions ends with the
   * price of the last one and the stock price read with it; quantity and
   * name never change.
   */
  lemma {:induction false} SettleEffect(s: State, acts: seq<ActionWithStock>, k: Id)
    requires WellFormed(s) && Targets(s, acts) && k in s.stocks
    ensures var r := Settle(s, acts);
            && r.stocks[k].quantity == s.stocks[k].quantity
            && r.stocks[k].name == s.stocks[k].name
            && (LastFor(acts, k).None? ==> r.stocks[k] == s.stocks[k])
            && (LastFor(acts, k).Some? ==>
                  r.stocks[k].price == LastFor(acts, k).value.action.price
                  && r.stocks[k].prevPrice == LastFor(acts, k).value.stock.price)
    decreases |acts|
  {
    if acts != [] {
      var front := acts[..|acts| - 1];
      assert Targets(s, front) by {
        forall x | x in front ensures x.action.stockId in s.stocks {
          var i :| 0 <= i < |front| && front[i] == x;
          assert acts[i] == x;
        }
      }
      SettleEffect(s, front, k);
    }
  }

  /**
   * The listing query has no ordering, so the database may return its rows in
   * any order: `rowOrder` is that choice, a rearrangement of every listing.
   */
  ghost predicate Rearranges(rowOrder: seq<ActionWithStock> -> seq<ActionWithStock>) {
    forall xs :: multiset(rowOrder(xs)) == multiset(xs)
  }

  /**
   * When the actions were read from `s` itself, in whatever order, each stock
   * with an action ends with the price of the last one in that order and with
   * its own price before settlement as prevPrice; the others keep their row.
   */
  lemma SettleFromListing(s: State, n: int, acts: seq<ActionWithStock>, k: Id)
    requires WellFormed(s) && k in s.stocks
    requires multiset(acts) == multiset(Rounds.ListRoundActionsByRoundNumber(s, n))
    ensures Targets(s, acts)
    ensures var r := Settle(s, acts);
            && r.stocks[k].quantity == s.stocks[k].quantity
            && (LastFor(acts, k).None? ==> r.stocks[k] == s.stocks[k])
            && (LastFor(acts, k).Some? ==>
                  r.stocks[k].price == LastFor(acts, k).value.action.price
                  && r.stocks[k].prevPrice == s.stocks[k].price)
  {
    ListedTargets(s, n, acts);
    SettleEffect(s, acts, k);
    if LastFor(acts, k).Some? {
      assert LastFor(acts, k).value in acts;
    }
  }

  /** A listing in any row order points at existing stocks, joined as they are in `s`. */
  lemma ListedTargets(s: State, n: int, acts: seq<ActionWithStock>)
    requires WellFormed(s)
    requires multiset(acts) == multiset(Rounds.ListRoundActionsByRoundNumber(s, n))
    ensures Targets(s, acts) && forall x :: x in acts ==> x.stock == s.stocks[x.action.stockId]
  {
    var listing := Rounds.ListRoundActionsByRoundNumber(s, n);
    ListingTargets(s, n);
    forall x | x in acts ensures x in listing {
      assert x in multiset(acts);
    }
  }

  /** No two listed actions are for the same stock, as the seed script creates them. */
  predicate OnePerStock(acts: seq<ActionWithStock>) {
    forall i, j :: 0 <= i < j < |acts| ==> acts[i].action.stockId != acts[j].action.stockId
  }

  /** With at most one action per stock, the row order does not change the outcome. */
  lemma SettleOrderFree(s: State, acts: seq<ActionWithStock>, acts': seq<ActionWithStock>)
    requires WellFormed(s) && Targets(s, acts) && OnePerStock(acts)
    requires multiset(acts') == multiset(acts)
    ensures Targets(s, acts') && Settle(s, acts') == Settle(s, acts)
  {
    forall x | x in acts' ensures x in acts {
      assert x in multiset(acts');
    }
    var r, r' := Settle(s, acts), Settle(s, acts');
    forall k | k in s.stocks ensures r'.stocks[k] == r.stocks[k] {
      SettleEffect(s, acts, k);
      SettleEffect(s, acts', k);
      SameLast(acts, acts', k);
    }
    assert r'.stocks == r.stocks;
  }

  /** Rearranging a list with at most one action per stock keeps each stock's last action. */
  lemma SameLast(acts: seq<ActionWithStock>, acts': seq<ActionWithStock>, k: Id)
    requires OnePerStock(acts) && multiset(acts') == multiset(acts)
    ensures LastFor(acts', k) == LastFor(acts, k)
  {
    if LastFor(acts, k).Some? {
      var v := LastFor(acts, k).value;
      assert v in multiset(acts');
      var p :| 0 <= p < |acts'| && acts'[p] == v;
      var w := LastFor(acts', k).value;
      assert w in multiset(acts);
      var i :| 0 <= i < |acts| && acts[i] == v;
      var j :| 0 <= j < |acts| && acts[j] == w;
      assert acts[i].action.stockId == acts[j].action.stockId;
    } else {
      forall i | 0 <= i < |acts'| ensures acts'[i].action.stockId != k {
        assert acts'[i] in multiset(acts);
        var j :| 0 <= j < |acts| && acts[j] == acts'[i];
      }
    }
  }

  /**
   * With two actions for one stock, the row order decides the price: the
   * stock ends with the price of whichever action comes last.
   */
  lemma OrderMatters()
    ensures var s := State(map[], map[2 := Stock(2, "ACME", 100, 100, 5)], map[], [], map[], [], 3);
            var x := ActionWithStock(RoundAction(7, 2, 1, 120, 20, None), s.stocks[2]);
            var y := ActionWithStock(RoundAction(8, 2, 1, 90, -10, None), s.stocks[2]);
            && Targets(s, [x, y]) && Targets(s, [y, x])
            && Settle(s, [x, y]).stocks[2].price == 90
            && Settle(s, [y, x]).stocks[2].price == 120
  {
    var s := State(map[], map[2 := Stock(2, "ACME", 100, 100, 5)], map[], [], map[], [], 3);
    var x := ActionWithStock(RoundAction(7, 2, 1, 120, 20, None), s.stocks[2]);
    var y := ActionWithStock(RoundAction(8, 2, 1, 90, -10, None), s.stocks[2]);
    assert [x, y][..1] == [x] && [y, x][..1] == [y];
    assert [x][..0] == [] && [y][..0] == [];
  }

  /** The listed actions point at existing stocks, read as they are in `s`. */
  lemma ListingTargets(s: State, n: int)
    requires WellFormed(s)
    ensures var acts := Rounds.ListRoundActionsByRoundNumber(s, n);
            Targets(s, acts) && forall x :: x in acts ==> x.stock == s.stocks[x.action.stockId]
  {
    var acts := Rounds.ListRoundActionsByRoundNumber(s, n);
    forall x | x in acts ensures x.action.stockId in s.stocks {
      var i :| 0 <= i < |s.actions| && s.actions[i] == x.action;
    }
  }

  /** The update loop of the settlement script, in list order. */
  method ApplyActions(db: Db, actions: seq<ActionWithStock>)
    requires db.Valid() && Targets(db.View(), actions)
    modifies db
    ensures db.Valid()
    ensures db.View() == Settle(old(db.View()), actions)
  {
    ghost var s0 := db.View();
    var i := 0;
    while i < |actions|
      invariant 0 <= i <= |actions|
      invariant db.Valid() && Targets(s0, actions[..i])
      invariant db.View() == Settle(s0, actions[..i])
    {
      assert actions[..i + 1][..i] == actions[..i] && actions[..i + 1][i] == actions[i];
      assert actions[i] in actions;
      db.UpdateStock(actions[i].action.stockId, actions[i].action.price, actions[i].stock.price);
      i := i + 1;
      assert Targets(s0, actions[..i]) by {
        forall x | x in actions[..i] ensures x.action.stockId in s0.stocks {
          assert x in actions;
        }
      }
    }
    assert actions[..i] == actions;
  }

  /**
   * The part of the script after the round ended: read the actions of round
   * `n`, in the order the database returns them, and apply them.
   */
  method SettleRound(db: Db, n: int, rowOrder: seq<ActionWithStock> -> seq<ActionWithStock>) returns (count: nat)
    requires db.Valid() && Rearranges(rowOrder)
    modifies db
    ensures db.Valid()
    ensures var acts := rowOrder(Rounds.ListRoundActionsByRoundNumber(old(db.View()), n));
            Targets(old(db.View()), acts) && db.View() == Settle(old(db.View()), acts) && count == |acts|
    ensures forall k :: k in old(db.stocks) ==>
              k in db.stocks && db.stocks[k].quantity == old(db.stocks)[k].quantity
  {
    ghost var s0 := db.View();
    var actions := rowOrder(Rounds.ListRoundActionsByRoundNumber(db.View(), n));
    ListedTargets(s0, n, actions);
    count := |actions|;
    if count == 0 {
      return;
    }
    ApplyActions(db, actions);
    forall k | k in old(db.stocks) ensures k in db.stocks && db.stocks[k].quantity == old(db.stocks)[k].quantity {
      SettleEffect(s0, actions, k);
    }
  }

  /**
   * The round whose actions the script applies after ending round `ended`:
   * the one numbered one above it, as the script is written.
   */
  function SettledRoundNumber(ended: RoundInfo): (n: int)
    ensures n > ended.roundNumber
  {
    ended.roundNumber + 1
  }

  /**
   * `main` of the settlement script: end the lowest open round, read the
   * actions of the round numbered one above it, and apply them in the order
   * the database returns them.
   */
  method Finish(db: Db, now: int, rowOrder: seq<ActionWithStock> -> seq<ActionWithStock>) returns (result: FinishResult)
    requires db.Valid() && Rearranges(rowOrder)
    modifies db
    ensures db.Valid()
    ensures result.NoRoundToEnd? <==> forall k :: k in old(db.rounds) ==> !Rounds.Open(old(db.rounds)[k])
    ensures result.NoRoundToEnd? ==> db.View() == old(db.View())
    ensures !result.NoRoundToEnd? ==> result.ended.id in old(db.rounds)
    ensures !result.NoRoundToEnd? ==>
              var closed := Rounds.StampRound(old(db.View()), result.ended.id, Rounds.ToEnd, now);
              var acts := rowOrder(Rounds.ListRoundActionsByRoundNumber(closed, SettledRoundNumber(result.ended)));
              && Rounds.LowestIn(old(db.rounds), result.ended.id, Rounds.ToEnd)
              && result.ended == closed.rounds[result.ended.id]
              && Targets(closed, acts)
              && db.View() == Settle(closed, acts)
              && (result.NoActions? <==> acts == [])
              && (result.Settled? ==> result.count == |acts|)
    ensures forall k :: k in old(db.stocks) ==>
              k in db.stocks && db.stocks[k].quantity == old(db.stocks)[k].quantity
  {
    var ended := db.EndRound(now);
    if ended.None? {
      return NoRoundToEnd;
    }
    assert ended.value.id in old(db.rounds) && Rounds.Open(old(db.rounds)[ended.value.id]);
    var count := SettleRound(db, SettledRoundNumber(ended.value), rowOrder);
    if count == 0 {
      result := NoActions(ended.value);
    } else {
      result := Settled(ended.value, count);
    }
  }
}
