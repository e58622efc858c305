# chaos_stock game engine in Dafny

This project models the server side of *chaos_stock*, a turn-based stock
trading game. Players register and log in with a name and a password, buy
and sell the game's stocks at the current price, and between rounds a
settlement script moves every stock to the price that was generated for it
in advance by the seed script. A separate script hands the precomputed
price moves ("round actions") out to players, five at a time.

The database is one object, `Store.Db`, holding the six tables: users,
stocks, holdings (`UserStock`, keyed by the pair user id / stock id), the
order log, rounds (`RoundInfo`) and round actions. Row ids come from a
counter. Every repository write is a method of `Db` that changes the tables
in place. Its contract gives the new state as a function of the old one,
written in `Repository` (users, stocks, orders) or `Rounds` (rounds and
round actions). Those functions carry the "only this row changes" facts.

The modules follow the program:

- `Schema`: the rows and `WellFormed`. Keys match row ids, the ids of orders
  and round actions are distinct and below the counter, and holdings and
  round actions point at existing rows.
- `Repository`, `Queries`, `Rounds`: the repository files. `Store`: the database object.
- `OrderRoute`: the order endpoint. `BuyLines` and `SellLines` specify what a
  request leaves in the database, line item by line item, with no rollback.
  The methods `BuyAll`, `SellAll` and `Action` run the loops over the live
  database and are proved to reach exactly that state.
- `Settlement`: the settlement script.
- `Trend`: the seed script. It contains the trend state machine, the price
  walk of each stock, and the round and action inserts.
- `Distribution`: the action distribution script.
- `Login`: the JSON login route and the form register-or-login route.

Behaviours kept as the code has them:

- The buy guard compares two numbers sent by the client. The stored balance
  can therefore go negative (`OrderRoute.BuyCanOverdraw`).
- A SELL of a stock the user does not hold creates a holding with the sold
  quantity.
- `startRound` does not check for an open round, so two starts in a row
  leave two rounds open.
- Settlement applies the actions of the round numbered one above the round
  it has just ended.

## Model

| member | source | states |
|---|---|---|
| Repository.AddUser | app/repository/user.server.ts:14-24 | inserts exactly one user under a fresh id with the given name and password; every existing user and every other table is unchanged |
| Repository.AddUserAllowsDuplicateNames | app/repository/user.server.ts:14-24 | no uniqueness check: adding a name someone already has leaves two users with that name |
| Repository.UpdateUserStock | app/repository/user.server.ts:26-60 | only the holdings table changes, and the database stays well-formed |
| Repository.UpdateUserStockEffect | app/repository/user.server.ts:32-59 | an existing (user, stock) holding gains the quantity on BUY and loses it otherwise; a missing one is created with the quantity whatever the side; every other holding is untouched |
| Repository.UpdateUserBalance | app/repository/user.server.ts:62-74 | that user's balance becomes exactly the argument; name, password and every other user are unchanged |
| Repository.GetUserById | app/repository/user.server.ts:76-82 | returns the user with that id exactly when one exists, otherwise none |
| Repository.GetStockById | app/repository/stocks.server.ts:12-18 | returns the stock with that id exactly when one exists, otherwise none |
| Repository.UpdateStock | app/repository/stocks.server.ts:20-34 | sets price and prevPrice of one stock; its quantity and name and all other stocks are unchanged |
| Repository.UpdateStockQuantity | app/repository/stocks.server.ts:36-64 | BUY lowers the stock's quantity by the amount and any other side raises it; no other field or stock changes |
| Repository.BuyThenSellRestoresStock | app/repository/stocks.server.ts:41-63 | a BUY followed by a SELL of the same amount restores the database exactly |
| Repository.AddOrder | app/repository/order.server.ts:8-24 | appends exactly one order carrying the arguments, with no sign check; earlier orders are untouched, so the log grows by one |
| Queries.GetUserByName | app/repository/user.server.ts:84-90 | returns none exactly when no user has the name, otherwise a stored user with that name |
| Queries.ListStocks | app/repository/stocks.server.ts:4-10 | returns every stock exactly once, sorted by name ascending |
| Store.Db.AddUser | app/repository/user.server.ts:14-24 | the tables become `Repository.AddUser` of the old tables, and the returned user is the inserted row |
| Store.Db.UpdateUserStock | app/repository/user.server.ts:26-60 | the tables become `Repository.UpdateUserStock` of the old tables |
| Store.Db.UpdateUserBalance | app/repository/user.server.ts:62-74 | the tables become `Repository.UpdateUserBalance` of the old tables |
| Store.Db.UpdateStock | app/repository/stocks.server.ts:20-34 | the tables become `Repository.UpdateStock` of the old tables |
| Store.Db.UpdateStockQuantity | app/repository/stocks.server.ts:36-64 | the tables become `Repository.UpdateStockQuantity` of the old tables |
| Store.Db.ListOrders | app/repository/order.server.ts:4-6 | returns every row of the order log, each once (no two share an id); no order is promised |
| Store.Db.AddOrder | app/repository/order.server.ts:8-24 | the tables become `Repository.AddOrder` of the old tables |
| Store.Db.StartRound | app/repository/round.server.ts:20-42 | stamps startedAt on an unstarted round with the lowest roundNumber; with none it returns none and changes nothing |
| Store.Db.EndRound | app/repository/round.server.ts:44-69 | stamps endedAt on an open round with the lowest roundNumber; with none it returns none and changes nothing |
| Store.Db.CreateRound | prisma/seed.ts:31-35 | the tables become `Rounds.CreateRound` of the old tables |
| Store.Db.SaveRoundAction | app/repository/round.server.ts:91-105 | the tables become `Rounds.SaveRoundAction` of the old tables |
| Store.Db.AssignActions | prisma/actions.ts:41-48 | the tables become `Rounds.AssignActions` of the old tables |
| Rounds.FindLowest | app/repository/round.server.ts:21-28 | returns an eligible round whose roundNumber is no higher than any eligible round's, or none when no round is eligible |
| Rounds.GetCurrentRoundInfo | app/repository/round.server.ts:9-18 | returns a started and unended round, or none exactly when no round is open |
| Rounds.Stamp | app/repository/round.server.ts:31-65 | sets startedAt (start) or endedAt (end) of that one round; all other rounds are unchanged |
| Rounds.StampRound | app/repository/round.server.ts:20-69 | only the rounds table changes, by `Stamp`, and the database stays well-formed |
| Rounds.StampAdvances | app/repository/round.server.ts:31-65 | a start or end never clears or moves a timestamp; it moves the chosen round from unstarted to started, or from open to ended |
| Rounds.StartIgnoresOpenRound | app/repository/round.server.ts:20-39 | starting while a round is open leaves two open rounds |
| Rounds.StartFromClosed | app/repository/round.server.ts:20-42 | a start from a table with no open round leaves at most one open |
| Rounds.EndCloses | app/repository/round.server.ts:44-69 | an end from a table with at most one open round leaves none open |
| Rounds.StepKeepsStartedFirst | app/repository/round.server.ts:20-69 | starts and ends keep every started round numbered no higher than any unstarted one |
| Rounds.StartComesAfterStarted | app/repository/round.server.ts:20-39 | the round a start picks is numbered no lower than every round started before it, so rounds open in increasing roundNumber |
| Rounds.FreshTable | app/repository/round.server.ts:20-69 | a table of unstarted rounds has no open round and meets the ordering invariant |
| Rounds.Alternation | app/repository/round.server.ts:20-69 | from all-unstarted, strictly alternating start/end calls leave no open round after each end and at most one at any time, and rounds open in roundNumber order |
| Rounds.AlternationStep | app/repository/round.server.ts:20-69 | one call of an alternating history keeps the invariants of `Alternation` |
| Rounds.CreateRound | prisma/seed.ts:31-35 | adds one unstarted round with the given number under a fresh id; nothing else changes |
| Rounds.SaveRoundAction | app/repository/round.server.ts:91-105 | appends one unassigned action with the given stock, diff, round and price; nothing else changes |
| Rounds.AssignActions | prisma/actions.ts:41-48 | sets userId on exactly the actions whose id is listed; nothing else changes |
| Rounds.ListRoundActionsByRoundNumber | app/repository/round.server.ts:75-89 | returns exactly the actions whose round has that number, each once (no two listed rows share an id), each joined with its current stock row |
| OrderRoute.ApplyLine | app/routes/api.order.tsx:43-53 | the writes of one line item keep the database well-formed; the effect itself is stated by `ApplyLineEffect` and `FourWrites` |
| OrderRoute.FourWrites | app/routes/api.order.tsx:44-53 | addOrder, updateUserStock, updateUserBalance and updateStockQuantity in that order give `ApplyLine` |
| OrderRoute.ApplyLineEffect | app/routes/api.order.tsx:43-53 | one line item appends one order with its fields, moves the (user, stock) holding by the quantity or creates it, sets the balance, moves the inventory the other way, and changes nothing else |
| OrderRoute.BuyLines | app/routes/api.order.tsx:33-54 | the buy loop applies a prefix of the lines; it fails exactly when it stops early, and the user and every stock still exist afterwards |
| OrderRoute.SellLines | app/routes/api.order.tsx:88-100 | the sell loop applies a prefix of the lines; it fails exactly when it stops early |
| OrderRoute.FindClientHolding | app/routes/api.order.tsx:77-79 | the first client entry with that stock id, or none exactly when there is none |
| OrderRoute.AllCovered | app/routes/api.order.tsx:76-85 | true exactly when every line has a client entry holding at least its quantity |
| OrderRoute.ApplyOrder | app/routes/api.order.tsx:12-117 | what a request leaves in the database; it stays well-formed |
| OrderRoute.WriteLine | app/routes/api.order.tsx:44-53 | the four writes of a line item change the tables to `ApplyLine` of the old tables |
| OrderRoute.BuyLinesStop | app/routes/api.order.tsx:35-41 | a line whose stock is missing, or short of units, stops the buy with that error and writes nothing for it |
| OrderRoute.SellLinesStop | app/routes/api.order.tsx:88-100 | a sell line whose stock does not exist stops with the processing error, after its order row was written (a schema assumption, see Left out) |
| OrderRoute.BuyOne | app/routes/api.order.tsx:35-53 | one pass of the buy loop agrees with `BuyLines` on the first line |
| OrderRoute.BuyAll | app/routes/api.order.tsx:33-54 | the buy loop leaves exactly the state and error of `BuyLines` |
| OrderRoute.CheckHoldings | app/routes/api.order.tsx:76-85 | accepts exactly when every line is covered by the client's holdings list |
| OrderRoute.SellOne | app/routes/api.order.tsx:89-99 | one pass of the sell loop agrees with `SellLines` on the first line |
| OrderRoute.SellAll | app/routes/api.order.tsx:88-100 | the sell loop leaves exactly the state and error of `SellLines` |
| OrderRoute.Action | app/routes/api.order.tsx:12-117 | the endpoint leaves `ApplyOrder`'s state and reports its error. An unknown user, the funds guard, an uncovered sell line and an unknown type are rejected with no write. On success it returns the stored user and all stocks sorted by name |
| OrderRoute.OrdersOfAt | app/repository/order.server.ts:15-23 | the i-th appended order carries the i-th line's stock, quantity and price and the i-th consecutive id |
| OrderRoute.BuyKeepsInventoryNonNegative | app/routes/api.order.tsx:35-53 | a buy never takes any stock's quantity below zero, even when a stock repeats in the request |
| OrderRoute.BuyBalance | app/routes/api.order.tsx:43-52 | the stored balance ends as the stored balance before, minus the sum of price × quantity over exactly the lines applied |
| OrderRoute.BuyInventory | app/routes/api.order.tsx:39-53 | each stock's quantity drops by the units of it the applied lines bought |
| OrderRoute.BuyHoldings | app/routes/api.order.tsx:51 | the buyer's holding of each stock grows by the units of it the applied lines bought |
| OrderRoute.BuyAppendsOrders | app/routes/api.order.tsx:44-50 | the order log gains exactly the BUY orders of the applied lines, in order with consecutive ids, after the old log |
| OrderRoute.BuyStopsAtFirstFailure | app/routes/api.order.tsx:33-41 | no rollback: a failed buy leaves exactly what a clean run over the lines before the failing one leaves, and the failing line's stock is missing or short in that state |
| OrderRoute.BuyFailureCause | app/routes/api.order.tsx:35-41 | a failed buy stops at a line whose stock is missing or short in the state the earlier lines left, with the matching error |
| OrderRoute.BuyFailedPrefix | app/routes/api.order.tsx:33-54 | a failed buy leaves the state that the lines before the failing one leave |
| OrderRoute.SellBalance | app/routes/api.order.tsx:89-98 | the stored balance ends as the stored balance before, plus the sum of price × quantity over exactly the lines applied |
| OrderRoute.SellInventory | app/routes/api.order.tsx:99 | each stock's quantity rises by the units of it the applied lines sold |
| OrderRoute.SellLineHeld | app/routes/api.order.tsx:97 | one sold line lowers the seller's existing holding of its own stock by its quantity and no other holding |
| OrderRoute.SellHoldingsStep | app/routes/api.order.tsx:88-100 | the inductive step of `SellHoldings` |
| OrderRoute.SellHoldings | app/routes/api.order.tsx:88-100 | the seller's existing holding of each stock drops by the units of it the applied lines sold, and stays in the table |
| OrderRoute.SellAppendsOrders | app/routes/api.order.tsx:88-100 | the order log gains the SELL orders of the applied lines, plus the order of the failing line when the sell stopped |
| OrderRoute.SellChecksBeforeWriting | app/routes/api.order.tsx:76-85 | one uncovered sell line rejects the whole request before any write |
| OrderRoute.BuyExample | app/routes/api.order.tsx:33-54 | buying 3 at 100 with balance 1000 and 5 in stock leaves balance 700, inventory 2, a holding of 3 and one order |
| OrderRoute.BuyCanOverdraw | app/routes/api.order.tsx:29-52 | a buy that passes the client-side funds guard can leave the stored balance negative |
| Settlement.Settle | prisma/finish.ts:22-24 | the update loop changes only the stocks table, on existing stocks |
| Settlement.LastFor | prisma/finish.ts:22-24 | the last listed action for a stock, or none exactly when the list has none for it |
| Settlement.SettleEffect | prisma/finish.ts:22-24 | a stock with no action keeps its row; one with actions takes the price of its last action and the stock price read with it; quantity and name never change |
| Settlement.SettleFromListing | prisma/finish.ts:14-24 | settling the listed actions of a round, in any row order, gives each stock with an action the price of its last action in that order and its old price as prevPrice; other stocks keep their row |
| Settlement.ListingTargets | app/repository/round.server.ts:75-89 | every listed action points at an existing stock, joined as it is in the table |
| Settlement.ListedTargets | app/repository/round.server.ts:75-89 | the same holds for the listing in any row order |
| Settlement.SettleOrderFree | prisma/finish.ts:22-24 | with at most one action per stock, as the seed script creates them, every row order gives the same tables |
| Settlement.SameLast | prisma/finish.ts:22-24 | with at most one action per stock, every row order has the same last action for each stock |
| Settlement.OrderMatters | prisma/finish.ts:22-24 | with two actions for one stock, the two row orders leave different prices |
| Settlement.ApplyActions | prisma/finish.ts:22-24 | the update loop changes the tables to `Settle` of the old tables |
| Settlement.SettleRound | prisma/finish.ts:14-24 | reads the round's actions in the order the database returns them and leaves `Settle` of them in that order; no stock quantity changes |
| Settlement.SettledRoundNumber | prisma/finish.ts:14-16 | the settled round is numbered above the round just ended |
| Settlement.Finish | prisma/finish.ts:8-25 | with no open round nothing changes. Otherwise the lowest open round is ended, and the actions of the round numbered one above it are applied in the database's row order; with none, no stock changes. No stock quantity ever changes |
| Trend.CalculateTrendDiff | prisma/seed.ts:144-155 | a normal direction gives 0 |
| Trend.TrendDiffFloor | prisma/seed.ts:153-154 | up gives the floor of price × magnitude, down its negation |
| Trend.WalkStock | prisma/seed.ts:64-114 | one row per round, each for this stock and that round |
| Trend.AllRows | prisma/seed.ts:64-115 | one row per (stock, round) pair |
| Trend.StepOnce | prisma/seed.ts:67-105 | the in-place update of the trend entry and the diff agree with `Step` |
| Trend.WalkRounds | prisma/seed.ts:65-114 | the inner loop leaves this stock's trend entry and rows as `WalkStock` gives them, and leaves the other entries alone |
| Trend.CreateRoundActions | prisma/seed.ts:39-118 | the generated list is `AllRows` of the stocks, rounds and draws |
| Trend.PrefixStep | prisma/seed.ts:66-113 | one more round extends the walk by exactly one step |
| Trend.PrefixRows | prisma/seed.ts:66-113 | the rows of the first m rounds are the first m rows of the walk |
| Trend.WalkPrices | prisma/seed.ts:65-113 | each row's price is the seed price plus all diffs so far for that stock, its own included |
| Trend.RunningPrices | prisma/seed.ts:107-113 | pushing a row priced at the running price plus its diff keeps every price a running sum |
| Trend.Countdown | prisma/seed.ts:71-84 | a running trend gives each of its remaining rounds the same diff, computed from the seed price, then resets to normal |
| Trend.TrendLasts | prisma/seed.ts:71-97 | a trend drawn with k ∈ {2, 3} and magnitude in [0.1, 0.25) gives k + 1 rounds the same diff and then resets |
| Trend.StartedTrend | prisma/seed.ts:88-96 | a started trend goes up or down with magnitude in [0.1, 0.25), has 2 or 3 rounds left, and its own diff is the trend diff |
| Trend.NormalBound | prisma/seed.ts:98-104 | a normal round keeps the entry and moves the price up by at most a tenth of the seed price, or down by less than a tenth plus one |
| Trend.LayoutAt | prisma/seed.ts:64-112 | row j of stock i sits at position i × rounds + j, and it is row j of that stock's own walk, which depends on nothing but that stock and its draws |
| Trend.WithRounds | prisma/seed.ts:29-37 | adds fresh unstarted rounds numbered 1..n; nothing else changes |
| Trend.CreateRounds | prisma/seed.ts:29-37 | the loop leaves `WithRounds` of the old tables |
| Trend.SaveRows | prisma/seed.ts:125-132 | appends one unassigned action per row, matching it, after the old actions |
| Trend.SaveRoundActions | prisma/seed.ts:125-132 | the save loop leaves `SaveRows` of the old tables |
| Distribution.FirstClaimed | prisma/actions.ts:32-38 | the position of the first action that already has an owner; all actions before it are unowned |
| Distribution.Reach | prisma/actions.ts:28-39 | after u users the index stands at 5u or at the first owned position, whichever comes first |
| Distribution.Assigned | prisma/actions.ts:28-39 | the in-memory list keeps its length |
| Distribution.Distribute | prisma/actions.ts:30-49 | the per-user updates keep the database well-formed |
| Distribution.TakeBlock | prisma/actions.ts:31-39 | the inner loop moves the index to `Reach(u + 1)`, gives user u the positions it passes, and collects their ids |
| Distribution.AssignRoundActionsToUsers | prisma/actions.ts:8-50 | given the table's own rows in shuffled order, the list becomes `Assigned` and the table becomes `Distribute` of the shuffled list; every table action that had an owner keeps it |
| Distribution.IdSetMembers | prisma/actions.ts:43 | an id is in the update's id list exactly when a collected action carries it |
| Distribution.IdSetSize | prisma/actions.ts:43 | the id list is no longer than the collected actions |
| Distribution.AtMostFivePerUser | prisma/actions.ts:32 | each user's block covers at most five positions and names at most five ids |
| Distribution.DisjointBlocks | prisma/actions.ts:34-37 | with distinct action ids, no id is handed to two users |
| Distribution.DisjointSlices | prisma/actions.ts:34-37 | two non-overlapping stretches of a list with distinct ids share no id |
| Distribution.UnclaimedTotal | prisma/actions.ts:28-39 | with no action owned beforehand, exactly the positions below min(5 × users, actions) are handed out |
| Distribution.ClaimStops | prisma/actions.ts:33-38 | an owned action is never reassigned, and nothing at or after the first owned action changes |
| Distribution.OnlyUserId | prisma/actions.ts:34-36 | an action either stays, or was unowned and gets exactly the id of the user whose window of five holds it |
| Distribution.DistributeOnlyUserIds | prisma/actions.ts:41-48 | the updates change only userId, only on actions named in some user's block, and no other table |
| Distribution.AtMostOnce | prisma/actions.ts:10 | a listing with distinct ids holds each row at most once |
| Distribution.NoRepeat | prisma/actions.ts:27 | a list that holds each row at most once has no row at two positions |
| Distribution.PermutedDistinct | prisma/actions.ts:27 | shuffling the listing keeps its ids distinct |
| Distribution.BlockUnowned | prisma/actions.ts:34-37 | a table action that already has an owner is in no user's block |
| Distribution.IdSetExtend | prisma/actions.ts:36-37 | taking the action under the index adds that position's id to the ids collected |
| Distribution.BlockEffectStep | prisma/actions.ts:41-48 | one more user's update gives that user exactly the rows of its block and leaves earlier users' rows as they were |
| Distribution.DistributeEffect | prisma/actions.ts:30-49 | after the updates, a table row named in user u's block belongs to user u, and a row in no block is unchanged |
| Distribution.DistributeTable | prisma/actions.ts:8-49 | on the table: an owned action keeps its owner, an action in user u's block goes to user u and is in no other user's block, every other action is unchanged |
| Login.LoginDecision | app/routes/api.login.tsx:8-15 | not registered exactly when the lookup found nobody; logged in exactly when the passwords are equal, with the found user |
| Login.ApiLogin | app/routes/api.login.tsx:4-20 | an unknown name gives the not-registered error; a login returns a stored user with that name and password; a wrong password means such a name exists with another password; nothing is written |
| Login.RegisterDecision | app/routes/user.login.tsx:15-24 | register exactly when nobody has the name; redirect exactly when the passwords are equal |
| Login.UserLogin | app/routes/user.login.tsx:9-29 | an unknown name inserts exactly one user and redirects to its id. A known name creates nothing: it redirects to a user with that name and password, or reports the name as taken |
| Login.SameDecision | app/routes/api.login.tsx:8-15 | the two routes make the same three-way decision on the same lookup |
| Login.RegisterThenLogin | app/routes/user.login.tsx:15-19 | after registering a fresh name, logging in with the same password succeeds with the new user |

## Left out

- getUserDetail and listUsers: the joined reads (holdings with stocks, round actions with rounds) are not modelled. The order endpoint answers with the stored user row. The distribution script takes the user list as a parameter.
- app/repository/user.sevrer.ts is a copy of addUser and getUserByName. The form login uses the models in `Repository` and `Queries`.
- createStocks and the `main` functions of prisma/seed.ts and prisma/actions.ts are not modelled as wholes; their steps are modelled separately: `Trend.CreateRounds`, `Trend.CreateRoundActions`, `Trend.SaveRoundActions` and `Distribution.AssignRoundActionsToUsers`. `Settlement.Finish` is the `main` of prisma/finish.ts. The settlement listing has no ordering, so `Settlement.SettleRound` and `Settlement.Finish` take the database's row order as a parameter (`rowOrder`, any rearrangement). The distribution script receives the shuffled array, required to hold the table's rows.
- Math.random and the sort with a random comparator: the draws of the seed script are a parameter (`Trend.Draw`, four reals in [0, 1) per stock and round). The distribution script receives the array already shuffled.
- Trend.CreateRoundActions: the stocks and rounds it reads with `findMany` (prisma/seed.ts:40-41) are parameters; only the requires of `Trend.SaveRows` ties them to the tables.
- Floating point: magnitudes and variations are exact reals, with `Floor` where the script calls Math.floor. Prices, quantities and balances are unbounded integers, with no float rounding and no non-integer quantities.
- Timestamps: `new Date()` is an integer tick passed in as `now`.
- Ids: cuid strings become natural numbers drawn from a counter; the order row's timestamps are not modelled.
- HTTP and JSON parsing, console output, `$disconnect` and `process.exit` are not modelled. The generic catch of the order endpoint is modelled only for a sell line for a missing stock.
- The Prisma schema is not modelled. The default of User.balance is the parameter `Db.defaultBalance`. `OrderRoute.SellLines` assumes that Order.stockId is a plain column and UserStock.stockId a relation: the order row of a sell line for a missing stock is written, and the holding insert then throws. If Order.stockId is a relation too, addOrder throws first and no row is written for that line; `OrderRoute.SellLinesStop` and `OrderRoute.SellAppendsOrders` count one row too many in that case.
- Stock.prevPrice: the column can be empty (createStocks at prisma/seed.ts:19-25 does not set it). The model stores an integer. No modelled operation creates a stock, and updateStock, the only write, always sets it, so a stock that was never settled is not represented.
- OrderRoute.SellHoldings: covers only holdings that exist before the request. A sold line whose holding is missing creates it with the sold quantity, as `OrderRoute.ApplyLineEffect` states.
- Concurrency between requests and scripts is not modelled; every operation runs alone.
- Queries.ListStocks: names are ordered by code point, not by the database's collation.
- Queries.GetUserByName and Rounds.GetCurrentRoundInfo: when several rows match, the database returns one of them. The contracts allow any matching row.
- Store.Db.ListOrders: returns the rows in stored order, one of the orders `findMany` may use; its contract promises only the rows, each once. The growth of the log by one per order is stated on `Repository.AddOrder`.
- Trend.CalculateTrendDiff: its own contract states only the normal case. The up and down cases are stated by `Trend.TrendDiffFloor`.
- Trend.StartedTrend: no bound is proved on the size of a trend move in terms of the seed price; only the magnitude range and the duration are.
- OrderRoute.ApplyOrder: its own contract states only well-formedness. The conservation facts are the `Buy*` and `Sell*` lemmas, and `OrderRoute.Action` ties the endpoint to `ApplyOrder`.
- Prisma `update` on a missing row throws. The update functions require the row to exist, because every caller checks first or reads the id from the table.
