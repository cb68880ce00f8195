# Crypto portfolio tracker core in Dafny

This project models the core of a crypto portfolio tracker: a ledger that applies BUY, SELL and TRANSFER transactions to a user's portfolios, a live price feed that fills an in-memory price cache and a price history, a profit-and-loss aggregator that values every held position at the newest stored price, and the role check that guards the routes.

Modules, one per source file:

- `Wrappers`, `Text` (common.dfy): `Option`/`Result`, ASCII lower-casing and case-sensitive `endsWith`.
- `PortfolioModel` (portfolio.dfy): the embedded asset position `{symbol, amount, purchasePrice}` and a portfolio whose assets list may be missing. It also has `IndexOf`, which is `findIndex` on an exact symbol, with the loop `FindIndex` proved equal to it. `Held` is the quantity of a symbol, and `WellFormed` means unique symbols and positive amounts.
- `Ledger` (ledger.dfy, for app/transaction/transaction.service.ts): `ApplyToAssets` is the pure effect of one transaction on an assets list. `LedgerStore` is a class holding the portfolio collection (a map from portfolio id to portfolio) and the transaction log (a sequence).
  - `LedgerStore.CreateTransaction` works step by step like the service. It takes a snapshot when the unit of work starts, writes the record first, loads the portfolio, finds the asset, updates the list in place and saves. On any error it restores the snapshot.
  - The lemmas state what each transaction type does to the list. They also show that unique symbols and positive amounts are preserved, and that over any run of transactions each symbol's quantity is its starting quantity plus the net bought minus sold.
- `CryptoPrice` (crypto_price.dfy, for app/cryptoPrice/cryptoPrice.service.ts): the subscribe request, the decoded stream message, the pure cache update `ApplyTick` and the lookup `GetCryptoPriceDetails`. `PriceFeed` is a class holding the module-level `priceCache` and the price history the feed writes; its `HandleMessage` is the `message` handler.
- `Pnl` (pnl.dfy, for app/portfolio/portfolio.service.ts): the history key of a symbol, the newest-price query `LatestPrice`, the row of one position `PositionPnl`, and the specification functions `AssetsPnl`/`PortfoliosPnl`. `AssetsPnl` is `Collect` over the row function `RowOf`: `Collect` keeps, in list order, the rows a function gives for a list of positions. The ordering and skipping lemmas are proved once for `Collect`. `CalculatePortfolioPNL` is the nested loop with `continue`, proved equal to `PortfoliosPnl`.
- `RoleAuth` (role_auth.dfy, for app/common/middleware/role-auth.middleware.ts): the pure decision `Decide` of the `roleAuth` middleware, and the role formatting used in its message.

Inputs the source gets from outside are parameters:

- the clock reading for the timestamp of a history entry;
- the transaction date, which is the request's own or the schema's `Date.now` default;
- whether the history insert succeeds;
- the decoded JSON of a stream message;
- the list of the user's portfolios as the database returns it;
- the stored price history.

`ApplyToAssets`, `ApplyAll`, `Net`, `ApplyTicks`, `LastTickPrice`, `PositionPnl`, `Collect`, `AssetsPnl`, `PortfoliosPnl`, `Flatten` and `ProfitLoss` are specification functions. The lemmas in the table state their properties.

Behaviour of the code that the model reproduces:

- The history key is the symbol with "USDT" appended unless it already ends with "USDT", and this suffix test is case-sensitive. So "btcusdt" is keyed as "btcusdtusdt" (`Pnl.HistoryKeyOfLowerPaired`), and a position stored with a lower-case paired symbol never finds a price.
- The cache lookup returns null for a cached price of 0 as well as for a missing symbol, because of `|| null`.
- The cache keeps no `lastUpdated` time.
- The history write is awaited inside the message handler. The cache is always updated before it.
- TRANSFER records the transaction and leaves the assets list unchanged.
- The transaction's `total` is taken from the request, not computed.
- The service does not check that the portfolio belongs to the requesting user.

## Model

| member | source | states |
|---|---|---|
| `PortfolioModel.AssetsOf` | app/transaction/transaction.service.ts:30 | a portfolio without an assets list is read as holding nothing |
| `PortfolioModel.IndexOf` | app/transaction/transaction.service.ts:33 | the index found is the first position with exactly that symbol; -1 exactly when no position has it |
| `PortfolioModel.FindIndex` | app/transaction/transaction.service.ts:33 | the search loop returns the same index as `IndexOf` |
| `PortfolioModel.RemoveAt` | app/transaction/transaction.service.ts:57 | `splice(i, 1)` leaves one position fewer: those before `i` in place, those after it shifted down one |
| `PortfolioModel.IndexOfUnique` | app/transaction/transaction.service.ts:33 | with unique symbols, every position is the one found for its own symbol |
| `Ledger.SchemaAccepts` | app/transaction/trasaction.schema.ts:10-12 | the record is stored only when amount, purchasePrice and total are all at least 0 |
| `Ledger.ErrorMessage` | app/transaction/transaction.service.ts:27-49 | the error texts "Portfolio not found" and "Not enough balance to sell" |
| `Ledger.ApplyToAssets` | app/transaction/transaction.service.ts:33-59 | the effect of one transaction on an assets list; its lemmas are `BuyHeldAddsAmount`, `BuyNewAppends`, `SellRefusal`, `SellPartial`, `SellToZero` and `TransferKeepsAssets` below |
| `Ledger.UpdateAssets` | app/transaction/transaction.service.ts:33-59 | the in-place update (find, add or push, refuse, deduct, splice at zero) yields exactly `ApplyToAssets`, and its only refusal is the balance error |
| `Ledger.LedgerStore.constructor` | app/transaction/transaction.service.ts:23-26 | the store holds the given transaction collection (written at 23) and portfolio collection (read at 26) |
| `Ledger.LedgerStore.CreateTransaction` | app/transaction/transaction.service.ts:16-75 | schema refusal, "Portfolio not found" and "Not enough balance to sell" happen exactly in their cases and leave portfolios and log unchanged; on success exactly the given record is appended and returned, only the target portfolio changes, its missing list is read as empty, and well-formed portfolios stay well-formed |
| `Ledger.BuyHeldAddsAmount` | app/transaction/transaction.service.ts:35-38 | BUY of a held symbol adds the amount to that position only; its cost basis, the list length and all other positions are unchanged |
| `Ledger.BuyNewAppends` | app/transaction/transaction.service.ts:39-45 | BUY of an unheld symbol appends exactly one position `{symbol, amount, purchasePrice}` at the end |
| `Ledger.SellRefusal` | app/transaction/transaction.service.ts:47-50 | a SELL fails, with InsufficientBalance, exactly when the symbol is unheld or held in a smaller amount |
| `Ledger.SellPartial` | app/transaction/transaction.service.ts:52-53 | a SELL below the held amount subtracts it from that position and changes nothing else |
| `Ledger.SellToZero` | app/transaction/transaction.service.ts:52-58 | a SELL of exactly the held amount removes that position, keeps the others in order, and with unique symbols leaves the symbol unheld |
| `Ledger.TransferKeepsAssets` | app/transaction/transaction.service.ts:35-59 | TRANSFER leaves the assets list untouched |
| `Ledger.ApplyPreservesWellFormed` | app/transaction/transaction.service.ts:33-58 | a validated, accepted transaction keeps symbols unique and amounts positive (never negative, no zero positions) |
| `Ledger.HeldAfterApply` | app/transaction/transaction.service.ts:33-58 | an accepted transaction moves its symbol's held quantity by +amount (BUY), -amount (SELL) or 0 (TRANSFER) and no other symbol's |
| `Ledger.ApplyAllNet` | app/transaction/transaction.service.ts:33-58 | over any accepted run of validated transactions, every symbol's quantity is its start plus net bought minus sold, and is never negative |
| `Ledger.BuyThenSellExample` | app/transaction/transaction.service.ts:35-58 | BUY 1.0 BTC at 30000 then SELL 0.4 leaves one position of 0.6 BTC at cost 30000 |
| `CryptoPrice.SubscribeMessage` | app/cryptoPrice/cryptoPrice.service.ts:17-23 | method "SUBSCRIBE", id 1, one channel per configured symbol in order, each the lower-cased symbol followed by "@ticker" |
| `CryptoPrice.SubscribeMessageDeterminesSymbols` | app/cryptoPrice/cryptoPrice.service.ts:20 | two symbol lists give the same request exactly when they agree symbol by symbol up to case |
| `CryptoPrice.IsTick` | app/cryptoPrice/cryptoPrice.service.ts:30 | a message is acted on only when it decoded and both `s` and `c` are truthy |
| `CryptoPrice.ApplyTick` | app/cryptoPrice/cryptoPrice.service.ts:28-34 | a message with truthy `s` and `c` sets the lower-cased symbol's entry to the price and keeps every other entry; any other message leaves the cache as it was |
| `CryptoPrice.GetCryptoPriceDetails` | app/cryptoPrice/cryptoPrice.service.ts:68-71 | a price is returned exactly when the lower-cased symbol is cached with a non-zero price, and it is that cached price |
| `CryptoPrice.ApplyTickKeepsLowerKeys` | app/cryptoPrice/cryptoPrice.service.ts:31-34 | the cache only ever holds lower-case keys |
| `CryptoPrice.LookupCachedKey` | app/cryptoPrice/cryptoPrice.service.ts:31-70 | because keys are stored lower-cased, every cached key is found by a lookup of itself and returns its price, or null when it is 0 |
| `CryptoPrice.LookupAfterTick` | app/cryptoPrice/cryptoPrice.service.ts:30-71 | a lookup of any symbol with the tick's lower-case form returns the tick's price, or null when it is 0 |
| `CryptoPrice.LookupOtherSymbol` | app/cryptoPrice/cryptoPrice.service.ts:30-71 | a tick never changes the lookup of a different symbol, and an ignored message changes no lookup |
| `CryptoPrice.LookupAfterTicks` | app/cryptoPrice/cryptoPrice.service.ts:26-71 | last write wins: after any run of messages, a lookup returns the last tick's price for that symbol, or the earlier cache's answer if none |
| `CryptoPrice.PriceFeed.constructor` | app/cryptoPrice/cryptoPrice.service.ts:5 | the cache starts empty; the durable history is kept as stored |
| `CryptoPrice.PriceFeed.SaveCryptoPriceToDB` | app/cryptoPrice/cryptoPrice.service.ts:54-61 | one history entry is appended when the insert succeeds; a failed insert changes nothing |
| `CryptoPrice.PriceFeed.HandleMessage` | app/cryptoPrice/cryptoPrice.service.ts:26-40 | the cache becomes `ApplyTick` of the old cache; an accepted tick issues one history write of the lower-cased symbol and price, which a failed write leaves out, and the cache stays lower-case keyed |
| `Pnl.HistoryKey` | app/portfolio/portfolio.service.ts:75-78 | the history key: the symbol paired with "USDT" unless it already ends with it, then lower-cased; its lemmas follow |
| `Pnl.HistoryKeyEndsWithQuote` | app/portfolio/portfolio.service.ts:75-78 | every history key ends with "usdt" |
| `Pnl.HistoryKeyOfPaired` | app/portfolio/portfolio.service.ts:75-78 | a bare symbol and its "USDT"-suffixed form give the same key, the lower-cased paired symbol |
| `Pnl.HistoryKeyOfLowerPaired` | app/portfolio/portfolio.service.ts:75 | the suffix test is case-sensitive: "btcusdt" is keyed as "btcusdtusdt" |
| `Pnl.LatestPrice` | app/portfolio/portfolio.service.ts:78-79 | the newest stored entry for a key; `LatestPriceNewest` and `LatestPriceIsStored` state its properties |
| `Pnl.LatestPriceNewest` | app/portfolio/portfolio.service.ts:78-79 | the query finds nothing exactly when no entry has the key; otherwise it finds an entry with the key whose timestamp is the greatest among the key's entries |
| `Pnl.LatestPriceIsStored` | app/portfolio/portfolio.service.ts:78-86 | the entry used is one of the stored history entries |
| `Pnl.PositionPnl` | app/portfolio/portfolio.service.ts:81-104 | the row of one position, or none when it is skipped; `PositionPnlRow` states its properties |
| `Pnl.PositionPnlRow` | app/portfolio/portfolio.service.ts:78-101 | a position is skipped exactly when its key has no entry; otherwise its row keeps the position's own symbol, amount and purchase price, uses the newest stored price, and profitLoss is (latestPrice - purchasePrice) * amount |
| `Pnl.CalculatePortfolioPNL` | app/portfolio/portfolio.service.ts:60-109 | the nested loops return exactly `PortfoliosPnl`, and no portfolios give an empty result |
| `Pnl.AssetsPnlAppend` | app/portfolio/portfolio.service.ts:73-105 | rows follow position order: valuing two lists end to end concatenates their rows |
| `Pnl.PortfoliosPnlFlatten` | app/portfolio/portfolio.service.ts:71-106 | portfolio order, then position order, no re-sorting: the result is the rows of all positions laid end to end |
| `Pnl.AssetsPnlSingle` | app/portfolio/portfolio.service.ts:81-104 | one position yields its row when priced and nothing otherwise, with no error |
| `Pnl.AssetsPnlLength` | app/portfolio/portfolio.service.ts:81-83 | there are at most as many rows as positions |
| `Pnl.AssetsPnlAllPriced` | app/portfolio/portfolio.service.ts:81-83 | there are as many rows as positions exactly when every position is priced |
| `Pnl.AssetsPnlSound` | app/portfolio/portfolio.service.ts:97-104 | every row is the row of some position of the list |
| `Pnl.ProfitLoss` | app/portfolio/portfolio.service.ts:91 | the absolute profit or loss (latestPrice - purchasePrice) * amount; `ProfitSign` states its sign |
| `Pnl.ProfitLossPercent` | app/portfolio/portfolio.service.ts:94 | the percentage before formatting, defined for a non-zero purchase price; `BtcExample` evaluates it |
| `Pnl.ProfitSign` | app/portfolio/portfolio.service.ts:91 | with a positive amount, profitLoss is positive exactly when the latest price is above cost, and zero exactly when equal |
| `Pnl.BtcExample` | app/portfolio/portfolio.service.ts:86-94 | 2 BTC bought at 40000 with a latest "btcusdt" price of 45000 yields profitLoss 10000 and a 12.5 percent ratio |
| `Pnl.FeedPointsReachPnl` | app/portfolio/portfolio.service.ts:75-78 | a position stored as a bare symbol is keyed like the ticks the feed stores for its USDT pair |
| `RoleAuth.FormatRole` | app/common/middleware/role-auth.middleware.ts:36-37 | same length, same first character, every later character lower-case, and equal to the role up to case (which together fix the result) |
| `RoleAuth.DeniedMessage` | app/common/middleware/role-auth.middleware.ts:36-41 | the formatted role followed by " can not access this resource"; `DeniedAdminMessage` and `DeniedUserMessage` evaluate it |
| `RoleAuth.FormatKnownRoles` | app/common/middleware/role-auth.middleware.ts:36-37 | "ADMIN" is shown as "Admin" and "USER" as "User" |
| `RoleAuth.Decide` | app/common/middleware/role-auth.middleware.ts:8-45 | allowed exactly when the path is public or the role is ADMIN/USER and is allowed; every rejection is 401; "Invalid user role" exactly for a non-public path with a null or unknown role; "<Role> can not access this resource" exactly for a known role that is not allowed |
| `RoleAuth.PublicRouteIgnoresRole` | app/common/middleware/role-auth.middleware.ts:15-19 | a public path is let through whatever the role, before any role check |
| `RoleAuth.DecideMonotone` | app/common/middleware/role-auth.middleware.ts:15-43 | allowing more roles or more public routes never rejects a request that was allowed |
| `RoleAuth.DeniedAdminMessage` | app/common/middleware/role-auth.middleware.ts:36-41 | the rejection message for ADMIN reads "Admin can not access this resource" |
| `RoleAuth.DeniedUserMessage` | app/common/middleware/role-auth.middleware.ts:36-41 | the rejection message for USER reads "User can not access this resource" |
| `RoleAuth.DeniedAdmin` | app/common/middleware/role-auth.middleware.ts:35-41 | an ADMIN on a non-public route that does not allow ADMIN is rejected with 401 "Admin can not access this resource" |

## Left out

- The WebSocket connection, its `open`, `error` and `close` handlers and the 5-second reconnect timer: network I/O and timers. The subscribe request they send is modelled.
- `JSON.parse` and `parseFloat`: a message arrives already decoded, with the price already read as a number. `s` is `None` when it is absent, falsy or not a string. `c` is `None` only when it is absent or falsy.
- Floating point: amounts and prices are exact reals, so rounding in `+=`, `-=` and the `=== 0` test is not modelled. NaN is not modelled either.
- `profitLossPercentage` and its `toFixed(2) + "%"` formatting: float formatting. `Pnl.ProfitLossPercent` gives the real-valued ratio and needs a non-zero purchase price, because the source divides by zero when the price is 0.
- The request amount is taken as a number. The validators check `isFloat` but do not convert, and urlencoded bodies carry strings. With a string amount, `amount += data.amount` on a held position would concatenate, giving for example "10.5" from 1 and "0.5". `Ledger.BuyHeldAddsAmount` states numeric addition.
- Inherited keys of the price cache: `priceCache` is a plain object. So a lookup of "constructor" or "__proto__" returns an inherited, truthy value from an empty cache, and a tick for "__proto__" stores nothing. The cache is modelled as a map with no inherited keys.
- Lower-casing covers ASCII letters only; JavaScript's `toLowerCase` also maps other Unicode letters.
- RoleAuth.FormatRole: the role is lower-cased with `toLocaleLowerCase`, whose result depends on the host's locale. Under a Turkish or Azerbaijani locale "I" becomes the dotless "ı", so "ADMIN" would read "Admın". The model lower-cases ASCII as a non-Turkic locale does, and `RoleAuth.FormatKnownRoles` and `RoleAuth.DeniedAdminMessage` hold only under such a locale.
- Mongo sessions as a concurrency mechanism: atomicity is modelled as sequential all-or-nothing state, not as isolation between concurrent requests. Concurrent message handlers and their interleaved history writes are not modelled either.
- Database-assigned ids and `createdAt`/`updatedAt` timestamps on records. `transactionDate` is an input of the request: it stands for the request's own value or for the `Date.now` default the schema fills in when there is none. The request field the validators check is called `date`; it is not a schema path, so Mongoose's strict mode drops it along with `notes`, and a request that follows the validators gets the clock reading as its date. The clock is not modelled. Mongoose validation failures other than the transaction schema's `min: 0` bounds, such as missing required fields or a failed `portfolio.save`, are not modelled.
- Ties in the newest-price query: when several entries for a key share the greatest timestamp, the database may return any of them. `Pnl.LatestPrice` picks the earliest stored one.
- `Pnl.CalculatePortfolioPNL` iterates `portfolio.assets` without a guard. Mongoose gives every loaded portfolio an assets array, so the model takes each portfolio's list as present.
- `Pnl.CalculatePortfolioPNL` takes the assets lists of the user's portfolios in the order `find({ userId })` returns them; that query is a database call.
- `RoleAuth.Decide` assumes the request has an authenticated user, since `authenticateJWT` runs before it on every route (app/user/user.route.ts). A missing `req.user` is not modelled.
- The CRUD wrappers with no logic of their own: `createPortfolio`, `getUserPortfolios`, `getPortfolioById`, `updatePortfolio`, `deletePortfolio`, `getUserTransactions`, `getTransactionById`, `deleteTransaction`, all of app/priceAlert/.
- app/user/user.service.ts and app/common/services/passport-jwt.service.ts (bcrypt, JWT, database calls): foreign libraries.
- Routes, controllers, validators, Swagger, email, configuration, error-handler and response helpers, index.ts start-up: plumbing. The request validators are stated as `Ledger.ValidRequest` and used as a hypothesis where the lemmas need it.
