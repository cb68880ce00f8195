/**
 * The ledger mutation engine of transaction.service.ts: one BUY, SELL or TRANSFER applied to a
 * portfolio's positions and to the transaction log, committed together or not at all.
 */
module Ledger {
  import opened Wrappers
  import opened PortfolioModel

  datatype TxType = Buy | Sell | Transfer

  /**
   * A transaction record (transaction.dto.ts): the request data, with `transactionDate` already
   * filled in (the schema's `Date.now` default when the request has none).
   */
  datatype Transaction = Transaction(
    user: UserId,
    portfolio: PortfolioId,
    cryptoSymbol: string,
    txType: TxType,
    amount: real,
    purchasePrice: real,
    total: real,
    transactionDate: int)

  datatype LedgerError =
    | RecordRejected        // the transaction schema refuses the record (a field below its `min: 0`)
    | PortfolioNotFound
    | InsufficientBalance

  function ErrorMessage(e: LedgerError): string
  {
    match e
    case RecordRejected => "Transaction validation failed"   // the start of Mongoose's message; the field and bound follow
    case PortfolioNotFound => "Portfolio not found"
    case InsufficientBalance => "Not enough balance to sell"
  }

  /** What the request validators let through: a non-empty symbol, a positive amount and price. */
  predicate ValidRequest(t: Transaction)
  {
    |t.cryptoSymbol| > 0 && t.amount > 0.0 && t.purchasePrice > 0.0
  }

  /** The `min: 0` bounds of the transaction schema, checked when the record is created. */
  predicate SchemaAccepts(t: Transaction)
  {
    t.amount >= 0.0 && t.purchasePrice >= 0.0 && t.total >= 0.0
  }

  /** The change a transaction makes to the quantity held of its own symbol. */
  function Delta(t: Transaction): real
  {
    match t.txType
    case Buy => t.amount
    case Sell => -t.amount
    case Transfer => 0.0
  }

  /** The effect of one transaction on an assets list: the new list, or the SELL refusal. */
  function ApplyToAssets(assets: seq<Position>, t: Transaction): Result<seq<Position>, LedgerError>
  {
    var i := IndexOf(assets, t.cryptoSymbol);
    match t.txType
    case Buy =>
      if i != -1 then Success(assets[i := assets[i].(amount := assets[i].amount + t.amount)])
      else Success(assets + [Position(t.cryptoSymbol, t.amount, t.purchasePrice)])
    case Sell =>
      if i == -1 || assets[i].amount < t.amount then Failure(InsufficientBalance)
      else
        var left := assets[i].amount - t.amount;
        if left == 0.0 then Success(RemoveAt(assets, i))
        else Success(assets[i := assets[i].(amount := left)])
    case Transfer => Success(assets)
  }

  /** Transactions applied one after the other; the first refusal stops the sequence. */
  function ApplyAll(assets: seq<Position>, ts: seq<Transaction>): Result<seq<Position>, LedgerError>
    decreases |ts|
  {
    if ts == [] then Success(assets)
    else
      match ApplyToAssets(assets, ts[0])
      case Failure(e) => Failure(e)
      case Success(next) => ApplyAll(next, ts[1..])
  }

  /** Net bought minus sold of `symbol` over a sequence of transactions. */
  function Net(ts: seq<Transaction>, symbol: string): real
    decreases |ts|
  {
    if ts == [] then 0.0
    else (if ts[0].cryptoSymbol == symbol then Delta(ts[0]) else 0.0) + Net(ts[1..], symbol)
  }

  // ---------------------------------------------------------------------------------------------
  // The effect of each transaction type on the assets list

  /** BUY of a held symbol adds to that position only: same length, same cost basis, others intact. */
  lemma BuyHeldAddsAmount(assets: seq<Position>, t: Transaction)
    requires t.txType == Buy
    requires IndexOf(assets, t.cryptoSymbol) != -1
    ensures ApplyToAssets(assets, t).Success?
    ensures var r := ApplyToAssets(assets, t).value; var i := IndexOf(assets, t.cryptoSymbol);
      && |r| == |assets|
      && r[i] == Position(assets[i].symbol, assets[i].amount + t.amount, assets[i].purchasePrice)
      && forall j :: 0 <= j < |r| && j != i ==> r[j] == assets[j]
  {
  }

  /** BUY of an unheld symbol appends exactly one new position at the end. */
  lemma BuyNewAppends(assets: seq<Position>, t: Transaction)
    requires t.txType == Buy
    requires forall j :: 0 <= j < |assets| ==> assets[j].symbol != t.cryptoSymbol
    ensures ApplyToAssets(assets, t) == Success(assets + [Position(t.cryptoSymbol, t.amount, t.purchasePrice)])
  {
  }

  /** A SELL is refused exactly when the symbol is not held or is held in a smaller amount. */
  lemma SellRefusal(assets: seq<Position>, t: Transaction)
    requires t.txType == Sell
    ensures ApplyToAssets(assets, t).Failure?
      <==> (forall j :: 0 <= j < |assets| ==> assets[j].symbol != t.cryptoSymbol)
           || Held(assets, t.cryptoSymbol) < t.amount
    ensures ApplyToAssets(assets, t).Failure? ==> ApplyToAssets(assets, t).error == InsufficientBalance
  {
  }

  /** A SELL of less than the held amount only lowers that position. */
  lemma SellPartial(assets: seq<Position>, t: Transaction)
    requires t.txType == Sell
    requires IndexOf(assets, t.cryptoSymbol) != -1
    requires t.amount < Held(assets, t.cryptoSymbol)
    ensures ApplyToAssets(assets, t).Success?
    ensures var r := ApplyToAssets(assets, t).value; var i := IndexOf(assets, t.cryptoSymbol);
      && |r| == |assets|
      && r[i] == assets[i].(amount := assets[i].amount - t.amount)
      && forall j :: 0 <= j < |r| && j != i ==> r[j] == assets[j]
  {
  }

  /**
   * A SELL of exactly the held amount removes the position; the others keep their relative
   * order, and with unique symbols the symbol is no longer held at all.
   */
  lemma {:induction false} SellToZero(assets: seq<Position>, t: Transaction)
    requires t.txType == Sell
    requires IndexOf(assets, t.cryptoSymbol) != -1
    requires t.amount == Held(assets, t.cryptoSymbol)
    ensures ApplyToAssets(assets, t).Success?
    ensures var r := ApplyToAssets(assets, t).value; var i := IndexOf(assets, t.cryptoSymbol);
      && |r| == |assets| - 1
      && (forall j :: 0 <= j < i ==> r[j] == assets[j])
      && (forall j :: i <= j < |r| ==> r[j] == assets[j + 1])
    ensures UniqueSymbols(assets) ==>
      forall j :: 0 <= j < |ApplyToAssets(assets, t).value| ==> ApplyToAssets(assets, t).value[j].symbol != t.cryptoSymbol
  {
    var i := IndexOf(assets, t.cryptoSymbol);
    var r := RemoveAt(assets, i);
    assert ApplyToAssets(assets, t) == Success(r);
    if UniqueSymbols(assets) {
      forall j | 0 <= j < |r| ensures r[j].symbol != t.cryptoSymbol {
        if j < i { assert r[j] == assets[j]; } else { assert r[j] == assets[j + 1]; }
      }
    }
  }

  /** TRANSFER leaves the assets list exactly as it was. */
  lemma TransferKeepsAssets(assets: seq<Position>, t: Transaction)
    requires t.txType == Transfer
    ensures ApplyToAssets(assets, t) == Success(assets)
  {
  }

  // ---------------------------------------------------------------------------------------------
  // Invariants: unique symbols, positive amounts, and the held quantity of every symbol

  /** A match with no match before it is the one `findIndex` returns. */
  lemma FirstMatch(a: seq<Position>, k: int, s: string)
    requires 0 <= k < |a| && a[k].symbol == s
    requires forall j :: 0 <= j < k ==> a[j].symbol != s
    ensures IndexOf(a, s) == k
  {
  }

  lemma IndexOfSameSymbols(a: seq<Position>, b: seq<Position>, s: string)
    requires |a| == |b|
    requires forall j :: 0 <= j < |a| ==> a[j].symbol == b[j].symbol
    ensures IndexOf(a, s) == IndexOf(b, s)
  {
  }

  lemma IndexOfAppendOther(a: seq<Position>, p: Position, s: string)
    requires p.symbol != s
    ensures IndexOf(a + [p], s) == IndexOf(a, s)
  {
    assert forall j :: 0 <= j < |a| ==> (a + [p])[j] == a[j];
  }

  lemma IndexOfRemoveOther(a: seq<Position>, i: int, s: string)
    requires 0 <= i < |a|
    requires a[i].symbol != s
    ensures var x, y := IndexOf(a, s), IndexOf(RemoveAt(a, i), s);
      && (x == -1 <==> y == -1)
      && (x != -1 ==> a[x] == (RemoveAt(a, i))[y])
  {
    var r := RemoveAt(a, i);
    var x := IndexOf(a, s);
    if x == -1 {
      assert forall j :: 0 <= j < |r| ==> r[j].symbol != s;
      assert IndexOf(r, s) == -1;
    } else if x < i {
      FirstMatch(r, x, s);
      assert r[x] == a[x];
    } else {
      assert r[x - 1] == a[x];
      assert forall j :: 0 <= j < x - 1 ==> r[j].symbol != s;
      FirstMatch(r, x - 1, s);
    }
  }

  lemma WellFormedAfterUpdate(a: seq<Position>, i: int, amount: real)
    requires WellFormed(a) && 0 <= i < |a| && amount > 0.0
    ensures WellFormed(a[i := a[i].(amount := amount)])
  {
  }

  lemma WellFormedAfterAppend(a: seq<Position>, p: Position)
    requires WellFormed(a) && p.amount > 0.0
    requires forall j :: 0 <= j < |a| ==> a[j].symbol != p.symbol
    ensures WellFormed(a + [p])
  {
  }

  lemma WellFormedAfterRemove(a: seq<Position>, i: int)
    requires WellFormed(a) && 0 <= i < |a|
    ensures WellFormed(RemoveAt(a, i))
  {
    var r := RemoveAt(a, i);
    assert forall j :: 0 <= j < |r| ==> r[j] == a[if j < i then j else j + 1];
  }

  /** Unique symbols and positive amounts survive every accepted, validated transaction. */
  lemma ApplyPreservesWellFormed(assets: seq<Position>, t: Transaction)
    requires WellFormed(assets)
    requires ValidRequest(t)
    requires ApplyToAssets(assets, t).Success?
    ensures WellFormed(ApplyToAssets(assets, t).value)
  {
    var i := IndexOf(assets, t.cryptoSymbol);
    match t.txType
    case Buy =>
      if i != -1 {
        WellFormedAfterUpdate(assets, i, assets[i].amount + t.amount);
      } else {
        WellFormedAfterAppend(assets, Position(t.cryptoSymbol, t.amount, t.purchasePrice));
      }
    case Sell =>
      if assets[i].amount - t.amount == 0.0 {
        WellFormedAfterRemove(assets, i);
      } else {
        WellFormedAfterUpdate(assets, i, assets[i].amount - t.amount);
      }
    case Transfer =>
  }

  lemma HeldAfterUpdate(a: seq<Position>, i: int, amount: real, s: string)
    requires UniqueSymbols(a)
    requires 0 <= i < |a|
    ensures Held(a[i := a[i].(amount := amount)], s) == if s == a[i].symbol then amount else Held(a, s)
  {
    IndexOfSameSymbols(a, a[i := a[i].(amount := amount)], s);
    if s == a[i].symbol {
      IndexOfUnique(a, i);
    }
  }

  lemma HeldAfterAppend(a: seq<Position>, p: Position, s: string)
    requires forall j :: 0 <= j < |a| ==> a[j].symbol != p.symbol
    ensures Held(a + [p], s) == if s == p.symbol then p.amount else Held(a, s)
  {
    if s == p.symbol {
      assert forall j :: 0 <= j < |a| ==> (a + [p])[j] == a[j];
      FirstMatch(a + [p], |a|, s);
    } else {
      IndexOfAppendOther(a, p, s);
    }
  }

  lemma HeldAfterRemove(a: seq<Position>, i: int, s: string)
    requires UniqueSymbols(a)
    requires 0 <= i < |a|
    ensures Held(RemoveAt(a, i), s) == if s == a[i].symbol then 0.0 else Held(a, s)
  {
    var r := RemoveAt(a, i);
    if s == a[i].symbol {
      assert forall j :: 0 <= j < i ==> r[j] == a[j];
      assert forall j :: i <= j < |r| ==> r[j] == a[j + 1];
      assert forall j :: 0 <= j < |r| ==> r[j].symbol != s;
    } else {
      IndexOfRemoveOther(a, i, s);
    }
  }

  /**
   * After an accepted transaction the held quantity of its symbol moved by the transaction's
   * delta, and every other symbol's quantity is unchanged.
   */
  lemma HeldAfterApply(assets: seq<Position>, t: Transaction, s: string)
    requires UniqueSymbols(assets)
    requires ApplyToAssets(assets, t).Success?
    ensures Held(ApplyToAssets(assets, t).value, s)
      == Held(assets, s) + (if s == t.cryptoSymbol then Delta(t) else 0.0)
  {
    var i := IndexOf(assets, t.cryptoSymbol);
    var r := ApplyToAssets(assets, t).value;
    if t.txType == Buy {
      if i != -1 {
        assert r == assets[i := assets[i].(amount := assets[i].amount + t.amount)];
        HeldAfterUpdate(assets, i, assets[i].amount + t.amount, s);
      } else {
        assert r == assets + [Position(t.cryptoSymbol, t.amount, t.purchasePrice)];
        HeldAfterAppend(assets, Position(t.cryptoSymbol, t.amount, t.purchasePrice), s);
      }
    } else if t.txType == Sell {
      if assets[i].amount - t.amount == 0.0 {
        assert r == RemoveAt(assets, i);
        HeldAfterRemove(assets, i, s);
      } else {
        assert r == assets[i := assets[i].(amount := assets[i].amount - t.amount)];
        HeldAfterUpdate(assets, i, assets[i].amount - t.amount, s);
      }
    }
  }

  /** Quantities held in a well-formed list are never negative. */
  lemma HeldNonNegative(assets: seq<Position>, s: string)
    requires PositiveAmounts(assets)
    ensures Held(assets, s) >= 0.0
  {
  }

  /**
   * Over any accepted run of validated transactions from a well-formed list, each symbol's held
   * quantity is its starting quantity plus the net of the BUYs and SELLs of that symbol, and the
   * list stays well-formed, so no quantity ever goes negative.
   */
  lemma {:induction false} ApplyAllNet(assets: seq<Position>, ts: seq<Transaction>, s: string)
    requires WellFormed(assets)
    requires forall k :: 0 <= k < |ts| ==> ValidRequest(ts[k])
    requires ApplyAll(assets, ts).Success?
    ensures WellFormed(ApplyAll(assets, ts).value)
    ensures Held(ApplyAll(assets, ts).value, s) == Held(assets, s) + Net(ts, s)
    ensures Held(ApplyAll(assets, ts).value, s) >= 0.0
    decreases |ts|
  {
    if ts == [] {
      HeldNonNegative(assets, s);
    } else {
      var next := ApplyToAssets(assets, ts[0]).value;
      ApplyPreservesWellFormed(assets, ts[0]);
      HeldAfterApply(assets, ts[0], s);
      assert forall k :: 0 <= k < |ts[1..]| ==> ValidRequest(ts[1..][k]) by {
        forall k | 0 <= k < |ts[1..]| ensures ValidRequest(ts[1..][k]) { assert ts[1..][k] == ts[k + 1]; }
      }
      ApplyAllNet(next, ts[1..], s);
      HeldNonNegative(ApplyAll(assets, ts).value, s);
    }
  }

  /** BUY 1.0 BTC at 30000 then SELL 0.4 BTC at 35000 leaves 0.6 BTC at a cost basis of 30000. */
  lemma BuyThenSellExample(u: UserId, p: PortfolioId, d1: int, d2: int)
    ensures ApplyAll([], [Transaction(u, p, "BTC", Buy, 1.0, 30000.0, 30000.0, d1),
                          Transaction(u, p, "BTC", Sell, 0.4, 35000.0, 14000.0, d2)])
      == Success([Position("BTC", 0.6, 30000.0)])
  {
    var buy := Transaction(u, p, "BTC", Buy, 1.0, 30000.0, 30000.0, d1);
    var sell := Transaction(u, p, "BTC", Sell, 0.4, 35000.0, 14000.0, d2);
    var none: seq<Position> := [];
    assert none + [Position("BTC", 1.0, 30000.0)] == [Position("BTC", 1.0, 30000.0)];
    assert ApplyToAssets([], buy) == Success([Position("BTC", 1.0, 30000.0)]);
    var held := [Position("BTC", 1.0, 30000.0)];
    assert IndexOf(held, "BTC") == 0;
    assert held[0 := held[0].(amount := 1.0 - 0.4)] == [Position("BTC", 0.6, 30000.0)];
    assert ApplyToAssets([Position("BTC", 1.0, 30000.0)], sell) == Success([Position("BTC", 0.6, 30000.0)]);
    assert [buy, sell][1..] == [sell];
    assert ApplyAll([Position("BTC", 0.6, 30000.0)], []) == Success([Position("BTC", 0.6, 30000.0)]);
    assert ApplyAll(held, [sell]) == ApplyAll([Position("BTC", 0.6, 30000.0)], []);
  }

  /**
   * The in-place update of `createTransaction`: find the asset, then add to it, append it, deduct
   * from it and drop it at zero, or refuse the SELL.
   */
  method UpdateAssets(assets0: seq<Position>, data: Transaction) returns (r: Result<seq<Position>, LedgerError>)
    ensures r == ApplyToAssets(assets0, data)
    ensures r.Failure? ==> r.error == InsufficientBalance
  {
    var assets := assets0;
    var i := FindIndex(assets, data.cryptoSymbol);
    if data.txType == Buy {
      if i != -1 {
        assets := assets[i := assets[i].(amount := assets[i].amount + data.amount)];
      } else {
        assets := assets + [Position(data.cryptoSymbol, data.amount, data.purchasePrice)];
      }
    } else if data.txType == Sell {
      if i == -1 || assets[i].amount < data.amount {
        return Failure(InsufficientBalance);
      }
      assets := assets[i := assets[i].(amount := assets[i].amount - data.amount)];
      if assets[i].amount == 0.0 {
        assets := RemoveAt(assets, i);
        assert assets == RemoveAt(assets0, i);
      }
    }
    return Success(assets);
  }

  // ---------------------------------------------------------------------------------------------
  // The stored state and `createTransaction`

  ghost predicate AllWellFormed(portfolios: map<PortfolioId, Portfolio>)
  {
    forall id :: id in portfolios ==> WellFormed(AssetsOf(portfolios[id]))
  }

  lemma AllWellFormedAfterSave(portfolios: map<PortfolioId, Portfolio>, id: PortfolioId, assets: seq<Position>)
    requires AllWellFormed(portfolios) && id in portfolios && WellFormed(assets)
    ensures AllWellFormed(portfolios[id := portfolios[id].(assets := Some(assets))])
  {
  }

  /** The portfolio collection and the transaction collection, as one store. */
  class LedgerStore {
    var portfolios: map<PortfolioId, Portfolio>
    var transactions: seq<Transaction>

    /** Every stored assets list keeps unique symbols and positive amounts. */
    ghost predicate Valid()
      reads this
    {
      AllWellFormed(portfolios)
    }

    constructor (initialPortfolios: map<PortfolioId, Portfolio>, initialTransactions: seq<Transaction>)
      ensures portfolios == initialPortfolios && transactions == initialTransactions
    {
      portfolios := initialPortfolios;
      transactions := initialTransactions;
    }

    /**
     * Records `data` and applies it to its portfolio inside one unit of work. The record is
     * written first; any error afterwards restores the state taken when the unit began.
     */
    method CreateTransaction(data: Transaction) returns (r: Result<Transaction, LedgerError>)
      modifies this
      ensures r == Failure(RecordRejected) <==> !SchemaAccepts(data)
      ensures r == Failure(PortfolioNotFound) <==> SchemaAccepts(data) && data.portfolio !in old(portfolios)
      ensures r == Failure(InsufficientBalance) <==>
        && SchemaAccepts(data) && data.portfolio in old(portfolios)
        && ApplyToAssets(AssetsOf(old(portfolios)[data.portfolio]), data).Failure?
      ensures r.Failure? ==> portfolios == old(portfolios) && transactions == old(transactions)
      ensures r.Success? ==> r.value == data && transactions == old(transactions) + [data]
      ensures r.Success? ==>
        && data.portfolio in old(portfolios)
        && var before := old(portfolios)[data.portfolio];
           portfolios == old(portfolios)[data.portfolio :=
             before.(assets := Some(ApplyToAssets(AssetsOf(before), data).value))]
      ensures old(Valid()) && ValidRequest(data) ==> Valid()
    {
      // session.startTransaction(): remember the state to restore on abort
      var savedPortfolios, savedTransactions := portfolios, transactions;

      if !SchemaAccepts(data) {
        return Failure(RecordRejected);
      }
      transactions := transactions + [data];

      if data.portfolio !in portfolios {
        portfolios, transactions := savedPortfolios, savedTransactions;
        return Failure(PortfolioNotFound);
      }
      var portfolio := portfolios[data.portfolio];
      var assets := if portfolio.assets.Some? then portfolio.assets.value else [];
      ghost var before := assets;

      var updated := UpdateAssets(assets, data);
      if updated.Failure? {
        portfolios, transactions := savedPortfolios, savedTransactions;
        return Failure(updated.error);
      }
      assets := updated.value;

      // portfolio.save() and session.commitTransaction()
      portfolios := portfolios[data.portfolio := portfolio.(assets := Some(assets))];
      if old(Valid()) && ValidRequest(data) {
        ApplyPreservesWellFormed(before, data);
        AllWellFormedAfterSave(savedPortfolios, data.portfolio, assets);
      }
      return Success(data);
    }
  }
}
