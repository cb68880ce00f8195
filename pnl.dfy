/**
 * The profit-and-loss aggregator of portfolio.service.ts: every position of every portfolio of a
 * user, valued at the newest stored price of its quote-paired symbol.
 */
module Pnl {
  import opened Wrappers
  import opened Text
  import opened PortfolioModel
  import opened CryptoPrice

  /** One row of the result; the percentage string is not modelled. */
  datatype PnlResult = PnlResult(
    symbol: string,
    amount: real,
    purchasePrice: real,
    latestPrice: real,
    profitLoss: real)

  /** The price history key of a position symbol: quote-paired with "USDT", then lower-cased. */
  function HistoryKey(symbol: string): string
  {
    Lower(if EndsWith(symbol, "USDT") then symbol else symbol + "USDT")
  }

  /** Every key ends with the lower-case quote currency, as the keys the feed stores do. */
  lemma HistoryKeyEndsWithQuote(symbol: string)
    ensures EndsWith(HistoryKey(symbol), "usdt")
  {
    var paired := if EndsWith(symbol, "USDT") then symbol else symbol + "USDT";
    if !EndsWith(symbol, "USDT") {
      EndsWithAppend(symbol, "USDT");
    }
    LowerKeepsSuffix(paired, "USDT");
    LowerUsdt();
  }

  /** Pairing a bare symbol or its already-paired form yields the same key. */
  lemma HistoryKeyOfPaired(base: string)
    requires !EndsWith(base, "USDT")
    ensures HistoryKey(base + "USDT") == HistoryKey(base) == Lower(base + "USDT")
  {
    EndsWithAppend(base, "USDT");
  }

  /** The suffix test is case-sensitive: a lower-case paired symbol is paired a second time. */
  lemma HistoryKeyOfLowerPaired()
    ensures HistoryKey("btcusdt") == "btcusdtusdt"
  {
    assert !EndsWith("btcusdt", "USDT") by { assert "btcusdt"[3..] == "usdt"; }
    assert "btcusdt" + "USDT" == "btcusdtUSDT";
  }

  /**
   * `findOne({symbol: key}).sort({timestamp: -1})`: the entry for `key` with the greatest
   * timestamp (of several with that timestamp, the earliest stored), or none.
   */
  function LatestPrice(history: seq<PricePoint>, key: string): Option<PricePoint>
    decreases |history|
  {
    if history == [] then None
    else
      var rest := LatestPrice(history[1..], key);
      if history[0].symbol != key then rest
      else if rest.Some? && rest.value.timestamp > history[0].timestamp then rest
      else Some(history[0])
  }

  /**
   * No entry is found exactly when no entry has the key; the entry found has the key and the
   * greatest timestamp among the key's entries.
   */
  lemma {:induction false} LatestPriceNewest(history: seq<PricePoint>, key: string)
    ensures LatestPrice(history, key).None? <==> forall i :: 0 <= i < |history| ==> history[i].symbol != key
    ensures var r := LatestPrice(history, key);
      r.Some? ==> r.value.symbol == key && forall i :: 0 <= i < |history| && history[i].symbol == key ==>
        history[i].timestamp <= r.value.timestamp
    decreases |history|
  {
    if history != [] {
      LatestPriceNewest(history[1..], key);
      assert forall i :: 1 <= i < |history| ==> history[i] == history[1..][i - 1];
    }
  }

  /** Absolute profit or loss of holding `amount` bought at `purchasePrice`, valued at `latestPrice`. */
  function ProfitLoss(latestPrice: real, purchasePrice: real, amount: real): real
  {
    (latestPrice - purchasePrice) * amount
  }

  /** The price used is one that was stored. */
  lemma {:induction false} LatestPriceIsStored(history: seq<PricePoint>, key: string)
    requires LatestPrice(history, key).Some?
    ensures LatestPrice(history, key).value in history
    decreases |history|
  {
    if history[0].symbol != key || LatestPrice(history, key) != Some(history[0]) {
      LatestPriceIsStored(history[1..], key);
    }
  }

  /** The result row of one position, or none when no price is stored for its key. */
  function PositionPnl(p: Position, history: seq<PricePoint>): Option<PnlResult>
  {
    match LatestPrice(history, HistoryKey(p.symbol))
    case None => None
    case Some(point) =>
      Some(PnlResult(p.symbol, p.amount, p.purchasePrice, point.price, ProfitLoss(point.price, p.purchasePrice, p.amount)))
  }

  /**
   * A position is skipped exactly when no price is stored under its key; otherwise its row keeps
   * the position's own symbol, amount and cost, and is valued at the newest stored price.
   */
  lemma PositionPnlRow(p: Position, history: seq<PricePoint>)
    ensures PositionPnl(p, history).None? <==> forall i :: 0 <= i < |history| ==> history[i].symbol != HistoryKey(p.symbol)
    ensures var r := PositionPnl(p, history); r.Some? ==>
      && r.value.symbol == p.symbol
      && r.value.amount == p.amount
      && r.value.purchasePrice == p.purchasePrice
      && (exists i :: 0 <= i < |history| && history[i].symbol == HistoryKey(p.symbol) && history[i].price == r.value.latestPrice)
      && (forall i :: 0 <= i < |history| && history[i].symbol == HistoryKey(p.symbol) ==>
            history[i].timestamp <= LatestPrice(history, HistoryKey(p.symbol)).value.timestamp)
      && r.value.latestPrice == LatestPrice(history, HistoryKey(p.symbol)).value.price
      && r.value.profitLoss == ProfitLoss(r.value.latestPrice, p.purchasePrice, p.amount)
  {
    LatestPriceNewest(history, HistoryKey(p.symbol));
    if PositionPnl(p, history).Some? {
      LatestPriceIsStored(history, HistoryKey(p.symbol));
    }
  }

  /**
   * The rows a row function gives for a list of positions, in list order; positions without a
   * row are skipped.
   */
  function Collect(assets: seq<Position>, row: Position -> Option<PnlResult>): seq<PnlResult>
    decreases |assets|
  {
    if assets == [] then []
    else
      var last := row(assets[|assets| - 1]);
      Collect(assets[..|assets| - 1], row) + (if last.Some? then [last.value] else [])
  }

  /** The row of each position, valued against `history`. */
  function RowOf(history: seq<PricePoint>): Position -> Option<PnlResult>
  {
    p => PositionPnl(p, history)
  }

  /** The rows of one assets list, in list order. */
  function AssetsPnl(assets: seq<Position>, history: seq<PricePoint>): seq<PnlResult>
  {
    Collect(assets, RowOf(history))
  }

  /** The rows of all the user's portfolios, portfolio by portfolio. */
  function PortfoliosPnl(portfolios: seq<seq<Position>>, history: seq<PricePoint>): seq<PnlResult>
    decreases |portfolios|
  {
    if portfolios == [] then []
    else PortfoliosPnl(portfolios[..|portfolios| - 1], history) + AssetsPnl(portfolios[|portfolios| - 1], history)
  }

  /** All positions of all portfolios, in portfolio order and then position order. */
  function Flatten(portfolios: seq<seq<Position>>): seq<Position>
    decreases |portfolios|
  {
    if portfolios == [] then [] else Flatten(portfolios[..|portfolios| - 1]) + portfolios[|portfolios| - 1]
  }

  /** `calculatePortfolioPNL`: the nested loops over the user's portfolios and their assets. */
  method CalculatePortfolioPNL(portfolios: seq<seq<Position>>, history: seq<PricePoint>)
    returns (results: seq<PnlResult>)
    ensures results == PortfoliosPnl(portfolios, history)
    ensures |portfolios| == 0 ==> results == []
  {
    if |portfolios| == 0 {
      return [];
    }
    results := [];
    var i := 0;
    while i < |portfolios|
      invariant 0 <= i <= |portfolios|
      invariant results == PortfoliosPnl(portfolios[..i], history)
    {
      var assets := portfolios[i];
      ghost var done := PortfoliosPnl(portfolios[..i], history);
      var j := 0;
      assert assets[..0] == [];
      while j < |assets|
        invariant 0 <= j <= |assets|
        invariant results == done + AssetsPnl(assets[..j], history)
      {
        var asset := assets[j];
        var symbol := if EndsWith(asset.symbol, "USDT") then asset.symbol else asset.symbol + "USDT";
        var latestPriceData := LatestPrice(history, Lower(symbol));
        LoopStep(assets, j, history, latestPriceData);
        if latestPriceData.None? {
          j := j + 1;
          continue;
        }
        var latestPrice := latestPriceData.value.price;
        var profitLoss := ProfitLoss(latestPrice, asset.purchasePrice, asset.amount);
        var row := PnlResult(asset.symbol, asset.amount, asset.purchasePrice, latestPrice, profitLoss);
        AppendAssoc(done, AssetsPnl(assets[..j], history), [row]);
        results := results + [row];
        j := j + 1;
      }
      assert assets[..j] == assets;
      PortfoliosPnlStep(portfolios, i, history);
      i := i + 1;
    }
    assert portfolios[..i] == portfolios;
  }

  lemma AppendAssoc(a: seq<PnlResult>, b: seq<PnlResult>, c: seq<PnlResult>)
    ensures (a + b) + c == a + (b + c)
  {
  }

  lemma CollectStep(assets: seq<Position>, j: int, row: Position -> Option<PnlResult>)
    requires 0 <= j < |assets|
    ensures Collect(assets[..j + 1], row) == Collect(assets[..j], row) +
      (if row(assets[j]).Some? then [row(assets[j]).value] else [])
  {
    assert assets[..j + 1][..j] == assets[..j];
  }

  /** The row of one position as the loop body computes it from the price looked up. */
  lemma PositionPnlOf(p: Position, history: seq<PricePoint>, latest: Option<PricePoint>)
    requires latest == LatestPrice(history, HistoryKey(p.symbol))
    ensures PositionPnl(p, history) ==
      if latest.None? then None
      else Some(PnlResult(p.symbol, p.amount, p.purchasePrice, latest.value.price,
                          ProfitLoss(latest.value.price, p.purchasePrice, p.amount)))
  {
  }

  /** One turn of the inner loop, as the loop body computes it from the price it looked up. */
  lemma LoopStep(assets: seq<Position>, j: int, history: seq<PricePoint>, latest: Option<PricePoint>)
    requires 0 <= j < |assets|
    requires latest == LatestPrice(history, HistoryKey(assets[j].symbol))
    ensures latest.None? ==> AssetsPnl(assets[..j + 1], history) == AssetsPnl(assets[..j], history)
    ensures latest.Some? ==>
      AssetsPnl(assets[..j + 1], history) == AssetsPnl(assets[..j], history) +
        [PnlResult(assets[j].symbol, assets[j].amount, assets[j].purchasePrice, latest.value.price,
                   ProfitLoss(latest.value.price, assets[j].purchasePrice, assets[j].amount))]
  {
    CollectStep(assets, j, RowOf(history));
    PositionPnlOf(assets[j], history, latest);
    if latest.None? {
      assert AssetsPnl(assets[..j], history) + [] == AssetsPnl(assets[..j], history);
    }
  }

  lemma PortfoliosPnlStep(portfolios: seq<seq<Position>>, i: int, history: seq<PricePoint>)
    requires 0 <= i < |portfolios|
    ensures PortfoliosPnl(portfolios[..i + 1], history) == PortfoliosPnl(portfolios[..i], history) + AssetsPnl(portfolios[i], history)
  {
    assert portfolios[..i + 1][..i] == portfolios[..i];
  }

  // ---------------------------------------------------------------------------------------------
  // Ordering, skipping and the values of each row

  lemma {:induction false} CollectAppend(a: seq<Position>, b: seq<Position>, row: Position -> Option<PnlResult>)
    ensures Collect(a + b, row) == Collect(a, row) + Collect(b, row)
    decreases |b|
  {
    if b == [] {
      assert a + b == a;
    } else {
      var b' := b[..|b| - 1];
      assert (a + b)[..|a + b| - 1] == a + b';
      assert (a + b)[|a + b| - 1] == b[|b| - 1];
      CollectAppend(a, b', row);
    }
  }

  lemma {:induction false} CollectLength(assets: seq<Position>, row: Position -> Option<PnlResult>)
    ensures |Collect(assets, row)| <= |assets|
    decreases |assets|
  {
    if assets != [] {
      CollectLength(assets[..|assets| - 1], row);
    }
  }

  lemma {:induction false} CollectAll(assets: seq<Position>, row: Position -> Option<PnlResult>)
    ensures |Collect(assets, row)| == |assets| <==> forall j :: 0 <= j < |assets| ==> row(assets[j]).Some?
    decreases |assets|
  {
    if assets != [] {
      var init := assets[..|assets| - 1];
      CollectAll(init, row);
      CollectLength(init, row);
      assert forall j :: 0 <= j < |init| ==> init[j] == assets[j];
    }
  }

  lemma {:induction false} CollectSound(assets: seq<Position>, row: Position -> Option<PnlResult>, k: int)
    requires 0 <= k < |Collect(assets, row)|
    ensures exists j :: 0 <= j < |assets| && row(assets[j]) == Some(Collect(assets, row)[k])
    decreases |assets|
  {
    var init := assets[..|assets| - 1];
    if k < |Collect(init, row)| {
      CollectSound(init, row, k);
      var j :| 0 <= j < |init| && row(init[j]) == Some(Collect(init, row)[k]);
      assert init[j] == assets[j];
    } else {
      assert row(assets[|assets| - 1]) == Some(Collect(assets, row)[k]);
    }
  }

  /** Rows follow the order of the assets: valuing a concatenation concatenates the rows. */
  lemma AssetsPnlAppend(a: seq<Position>, b: seq<Position>, history: seq<PricePoint>)
    ensures AssetsPnl(a + b, history) == AssetsPnl(a, history) + AssetsPnl(b, history)
  {
    CollectAppend(a, b, RowOf(history));
  }

  /**
   * Portfolio order, then position order, and no re-sorting: the result is the valuation of all
   * positions laid end to end.
   */
  lemma {:induction false} PortfoliosPnlFlatten(portfolios: seq<seq<Position>>, history: seq<PricePoint>)
    ensures PortfoliosPnl(portfolios, history) == AssetsPnl(Flatten(portfolios), history)
    decreases |portfolios|
  {
    if portfolios != [] {
      var init := portfolios[..|portfolios| - 1];
      PortfoliosPnlFlatten(init, history);
      AssetsPnlAppend(Flatten(init), portfolios[|portfolios| - 1], history);
    }
  }

  /** A single position gives its row when a price is stored and nothing otherwise. */
  lemma AssetsPnlSingle(p: Position, history: seq<PricePoint>)
    ensures AssetsPnl([p], history) == if PositionPnl(p, history).Some? then [PositionPnl(p, history).value] else []
  {
    var row := RowOf(history);
    assert [p][..0] == [] && [p][0] == p;
    assert Collect([p], row) == Collect([], row) + (if row(p).Some? then [row(p).value] else []);
    assert row(p) == PositionPnl(p, history);
  }

  /** At most one row per position. */
  lemma AssetsPnlLength(assets: seq<Position>, history: seq<PricePoint>)
    ensures |AssetsPnl(assets, history)| <= |assets|
  {
    CollectLength(assets, RowOf(history));
  }

  /** Every position has a row exactly when a price is stored for its key. */
  lemma AssetsPnlAllPriced(assets: seq<Position>, history: seq<PricePoint>)
    ensures |AssetsPnl(assets, history)| == |assets|
      <==> forall j :: 0 <= j < |assets| ==> PositionPnl(assets[j], history).Some?
  {
    CollectAll(assets, RowOf(history));
  }

  /** Every row is the row of some position of the list. */
  lemma AssetsPnlSound(assets: seq<Position>, history: seq<PricePoint>, k: int)
    requires 0 <= k < |AssetsPnl(assets, history)|
    ensures exists j :: 0 <= j < |assets| && PositionPnl(assets[j], history) == Some(AssetsPnl(assets, history)[k])
  {
    CollectSound(assets, RowOf(history), k);
  }

  /** With a positive amount, a row shows a profit exactly when the latest price is above cost. */
  lemma ProfitSign(r: PnlResult)
    requires r.amount > 0.0
    requires r.profitLoss == ProfitLoss(r.latestPrice, r.purchasePrice, r.amount)
    ensures r.profitLoss > 0.0 <==> r.latestPrice > r.purchasePrice
    ensures r.profitLoss == 0.0 <==> r.latestPrice == r.purchasePrice
  {
    if r.latestPrice > r.purchasePrice {
      assert (r.latestPrice - r.purchasePrice) * r.amount > 0.0;
    } else if r.latestPrice < r.purchasePrice {
      assert (r.purchasePrice - r.latestPrice) * r.amount > 0.0;
    }
  }

  /** The profit-and-loss percentage, as a real number (the source formats it to two decimals). */
  function ProfitLossPercent(r: PnlResult): real
    requires r.purchasePrice != 0.0
  {
    (r.latestPrice - r.purchasePrice) / r.purchasePrice * 100.0
  }

  /** Two BTC bought at 40000 with a latest stored "btcusdt" price of 45000: +10000, +12.5 percent. */
  lemma BtcExample(t: int)
    ensures PortfoliosPnl([[Position("BTC", 2.0, 40000.0)]], [PricePoint("btcusdt", 45000.0, t)])
      == [PnlResult("BTC", 2.0, 40000.0, 45000.0, 10000.0)]
    ensures ProfitLossPercent(PnlResult("BTC", 2.0, 40000.0, 45000.0, 10000.0)) == 12.5
  {
    var p := Position("BTC", 2.0, 40000.0);
    var h := [PricePoint("btcusdt", 45000.0, t)];
    assert !EndsWith("BTC", "USDT");
    assert "BTC" + "USDT" == "BTCUSDT";
    assert Lower("BTCUSDT") == "btcusdt";
    assert HistoryKey("BTC") == "btcusdt";
    assert LatestPrice(h, "btcusdt") == Some(h[0]);
    AssetsPnlSingle(p, h);
    var ps := [[p]];
    assert ps[..0] == [];
  }

  /** A position held in the ledger as a bare symbol is valued from the ticks the feed stores. */
  lemma FeedPointsReachPnl(base: string, m: Message)
    requires !EndsWith(base, "USDT")
    requires IsTick(m) && TickKey(m) == Lower(base + "USDT")
    ensures HistoryKey(base) == TickKey(m)
  {
    HistoryKeyOfPaired(base);
  }
}
