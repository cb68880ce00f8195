/** A portfolio and its ordered list of asset positions (portfolio.dto.ts, portfolio.schema.ts). */
module PortfolioModel {
  import opened Wrappers

  type UserId = string
  type PortfolioId = string

  /** One embedded asset entry: `{symbol, amount, purchasePrice}`. */
  datatype Position = Position(symbol: string, amount: real, purchasePrice: real)

  /**
   * A stored portfolio. `assets` is `None` when the document has no assets list at all;
   * name and description play no part in the core and are not kept.
   */
  datatype Portfolio = Portfolio(userId: UserId, assets: Option<seq<Position>>)

  /** The assets list of a portfolio, with a missing list read as empty. */
  function AssetsOf(p: Portfolio): seq<Position>
  {
    if p.assets.Some? then p.assets.value else []
  }

  /** `Array.prototype.findIndex` for an exact symbol match: the first match, or -1. */
  function IndexOf(assets: seq<Position>, symbol: string): (i: int)
    ensures -1 <= i < |assets|
    ensures i >= 0 ==> assets[i].symbol == symbol
    ensures i >= 0 ==> forall j :: 0 <= j < i ==> assets[j].symbol != symbol
    ensures i == -1 <==> forall j :: 0 <= j < |assets| ==> assets[j].symbol != symbol
  {
    if assets == [] then -1
    else if assets[0].symbol == symbol then 0
    else
      var k := IndexOf(assets[1..], symbol);
      if k == -1 then -1 else k + 1
  }

  /** The loop that `findIndex` runs, proved to agree with `IndexOf`. */
  method FindIndex(assets: seq<Position>, symbol: string) returns (i: int)
    ensures i == IndexOf(assets, symbol)
  {
    var k := 0;
    while k < |assets|
      invariant 0 <= k <= |assets|
      invariant forall j :: 0 <= j < k ==> assets[j].symbol != symbol
    {
      if assets[k].symbol == symbol {
        return k;
      }
      k := k + 1;
    }
    return -1;
  }

  /** The quantity of `symbol` held, read from the first matching position; 0 when none. */
  function Held(assets: seq<Position>, symbol: string): real
  {
    var i := IndexOf(assets, symbol);
    if i == -1 then 0.0 else assets[i].amount
  }

  /** At most one position per symbol. */
  ghost predicate UniqueSymbols(assets: seq<Position>)
  {
    forall i, j :: 0 <= i < j < |assets| ==> assets[i].symbol != assets[j].symbol
  }

  /** No position is negative, and none is left at exactly zero. */
  ghost predicate PositiveAmounts(assets: seq<Position>)
  {
    forall i :: 0 <= i < |assets| ==> assets[i].amount > 0.0
  }

  ghost predicate WellFormed(assets: seq<Position>)
  {
    UniqueSymbols(assets) && PositiveAmounts(assets)
  }

  /** With unique symbols, the position at index k is the one `findIndex` finds for its symbol. */
  lemma IndexOfUnique(assets: seq<Position>, k: int)
    requires UniqueSymbols(assets)
    requires 0 <= k < |assets|
    ensures IndexOf(assets, assets[k].symbol) == k
  {
  }

  /** `assets.splice(i, 1)`: the list without position `i`, every later position shifted down. */
  function RemoveAt(assets: seq<Position>, i: int): (r: seq<Position>)
    requires 0 <= i < |assets|
    ensures |r| == |assets| - 1
    ensures forall j :: 0 <= j < i ==> r[j] == assets[j]
    ensures forall j :: i <= j < |r| ==> r[j] == assets[j + 1]
  {
    assets[..i] + assets[i + 1..]
  }
}
