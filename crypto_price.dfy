/**
 * The price feed of cryptoPrice.service.ts: the subscribe request, the handling of one inbound
 * tick (the in-memory price cache and the price history write), and the cached-price lookup.
 */
module CryptoPrice {
  import opened Wrappers
  import opened Text

  /** One stored price observation (cryptoPriceHistory.schema.ts). */
  datatype PricePoint = PricePoint(symbol: string, price: real, timestamp: int)

  /** The JSON subscribe request sent when the stream opens. */
  datatype SubscribeRequest = SubscribeRequest(requestMethod: string, params: seq<string>, id: int)

  /**
   * An inbound stream message after `JSON.parse`. `s` is `None` when the field is absent, empty
   * or not a string; `c` is `None` when the field is absent or falsy, and otherwise holds the
   * price that `parseFloat` reads from it.
   */
  datatype Message = Unparsable | Decoded(s: Option<string>, c: Option<real>)

  function SubscribeMessage(symbols: seq<string>): (r: SubscribeRequest)
    ensures r.requestMethod == "SUBSCRIBE" && r.id == 1
    ensures |r.params| == |symbols|
    ensures forall i :: 0 <= i < |symbols| ==> r.params[i] == Lower(symbols[i]) + "@ticker"
  {
    SubscribeRequest("SUBSCRIBE", seq(|symbols|, i requires 0 <= i < |symbols| => Lower(symbols[i]) + "@ticker"), 1)
  }

  /**
   * Two symbol lists produce the same subscribe request exactly when they agree symbol by symbol
   * up to case: the channel list loses nothing but case.
   */
  lemma SubscribeMessageDeterminesSymbols(a: seq<string>, b: seq<string>)
    ensures SubscribeMessage(a) == SubscribeMessage(b)
      <==> |a| == |b| && forall i :: 0 <= i < |a| ==> Lower(a[i]) == Lower(b[i])
  {
    var ra, rb := SubscribeMessage(a), SubscribeMessage(b);
    if ra == rb {
      forall i | 0 <= i < |a| ensures Lower(a[i]) == Lower(b[i]) {
        assert ra.params[i] == rb.params[i];
        CancelSuffix(Lower(a[i]), Lower(b[i]), "@ticker");
      }
    }
    if |a| == |b| && forall i :: 0 <= i < |a| ==> Lower(a[i]) == Lower(b[i]) {
      assert ra.params == rb.params;
    }
  }

  /** The message handler acts only on a decoded message whose `s` and `c` are both truthy. */
  predicate IsTick(m: Message)
  {
    m.Decoded? && m.s.Some? && m.s.value != "" && m.c.Some?
  }

  /** The cache key of a tick: its symbol, lower-cased. */
  function TickKey(m: Message): string
    requires IsTick(m)
  {
    Lower(m.s.value)
  }

  /** The price cache after one message. */
  function ApplyTick(cache: map<string, real>, m: Message): (r: map<string, real>)
    ensures !IsTick(m) ==> r == cache
    ensures IsTick(m) ==> r.Keys == cache.Keys + {TickKey(m)} && r[TickKey(m)] == m.c.value
    ensures IsTick(m) ==> forall k :: k in cache && k != TickKey(m) ==> r[k] == cache[k]
  {
    if IsTick(m) then cache[TickKey(m) := m.c.value] else cache
  }

  /** `getCryptoPriceDetails`: the cached price under the lower-cased symbol, or null if falsy. */
  function GetCryptoPriceDetails(cache: map<string, real>, symbol: string): (r: Option<real>)
    ensures r.Some? <==> Lower(symbol) in cache && cache[Lower(symbol)] != 0.0
    ensures r.Some? ==> r.value == cache[Lower(symbol)]
  {
    var key := Lower(symbol);
    if key in cache && cache[key] != 0.0 then Some(cache[key]) else None
  }

  /** Messages handled in arrival order. */
  function ApplyTicks(cache: map<string, real>, ms: seq<Message>): map<string, real>
    decreases |ms|
  {
    if ms == [] then cache else ApplyTick(ApplyTicks(cache, ms[..|ms| - 1]), ms[|ms| - 1])
  }

  /** The price of the last tick whose key is `key`, if any. */
  function LastTickPrice(ms: seq<Message>, key: string): Option<real>
    decreases |ms|
  {
    if ms == [] then None
    else if IsTick(ms[|ms| - 1]) && TickKey(ms[|ms| - 1]) == key then Some(ms[|ms| - 1].c.value)
    else LastTickPrice(ms[..|ms| - 1], key)
  }

  /** The cache only ever holds lower-case keys. */
  ghost predicate LowerKeys(cache: map<string, real>)
  {
    forall k :: k in cache ==> IsLower(k)
  }

  lemma ApplyTickKeepsLowerKeys(cache: map<string, real>, m: Message)
    requires LowerKeys(cache)
    ensures LowerKeys(ApplyTick(cache, m))
  {
    if IsTick(m) {
      LowerIsLower(m.s.value);
    }
  }

  /**
   * With lower-case keys, every entry the cache holds is reachable: a lookup of a cached key
   * returns its price, unless that price is 0.
   */
  lemma LookupCachedKey(cache: map<string, real>, k: string)
    requires LowerKeys(cache) && k in cache
    ensures GetCryptoPriceDetails(cache, k) == if cache[k] != 0.0 then Some(cache[k]) else None
  {
    LowerOfLower(k);
  }

  /** A lookup right after a tick for the same symbol, in any case, sees that tick's price. */
  lemma LookupAfterTick(cache: map<string, real>, m: Message, symbol: string)
    requires IsTick(m) && Lower(symbol) == TickKey(m)
    ensures GetCryptoPriceDetails(ApplyTick(cache, m), symbol)
      == if m.c.value != 0.0 then Some(m.c.value) else None
  {
  }

  /** A tick for one symbol never changes what a lookup of another symbol returns. */
  lemma LookupOtherSymbol(cache: map<string, real>, m: Message, symbol: string)
    requires !IsTick(m) || Lower(symbol) != TickKey(m)
    ensures GetCryptoPriceDetails(ApplyTick(cache, m), symbol) == GetCryptoPriceDetails(cache, symbol)
  {
  }

  /**
   * Last write wins: after any run of messages, a lookup returns the price of the last tick for
   * that symbol (null if that price is 0), or what the cache held before if there was none.
   */
  lemma {:induction false} LookupAfterTicks(cache: map<string, real>, ms: seq<Message>, symbol: string)
    ensures GetCryptoPriceDetails(ApplyTicks(cache, ms), symbol)
      == match LastTickPrice(ms, Lower(symbol))
         case None => GetCryptoPriceDetails(cache, symbol)
         case Some(p) => if p != 0.0 then Some(p) else None
    decreases |ms|
  {
    if ms != [] {
      var last := ms[|ms| - 1];
      LookupAfterTicks(cache, ms[..|ms| - 1], symbol);
      if IsTick(last) && TickKey(last) == Lower(symbol) {
        LookupAfterTick(ApplyTicks(cache, ms[..|ms| - 1]), last, symbol);
      } else {
        LookupOtherSymbol(ApplyTicks(cache, ms[..|ms| - 1]), last, symbol);
      }
    }
  }

  /** The module-level price cache and the price history collection the feed writes to. */
  class PriceFeed {
    var priceCache: map<string, real>
    var history: seq<PricePoint>

    ghost predicate Valid()
      reads this
    {
      LowerKeys(priceCache)
    }

    /** The process starts with an empty cache; the history collection is durable. */
    constructor (storedHistory: seq<PricePoint>)
      ensures Valid()
      ensures priceCache == map[] && history == storedHistory
    {
      priceCache := map[];
      history := storedHistory;
    }

    /** `saveCryptoPriceToDB`: one insert, whose failure is logged and swallowed. */
    method SaveCryptoPriceToDB(symbol: string, price: real, now: int, writeSucceeds: bool)
      modifies this`history
      ensures history == old(history) + if writeSucceeds then [PricePoint(symbol, price, now)] else []
    {
      if writeSucceeds {
        history := history + [PricePoint(symbol, price, now)];
      }
    }

    /**
     * The `message` handler. The clock reading `now` and the outcome of the history insert are
     * inputs; nothing else in the state is touched.
     */
    method HandleMessage(m: Message, now: int, writeSucceeds: bool)
      requires Valid()
      modifies this
      ensures Valid()
      ensures priceCache == ApplyTick(old(priceCache), m)
      ensures history == old(history) +
        if IsTick(m) && writeSucceeds then [PricePoint(TickKey(m), m.c.value, now)] else []
    {
      if IsTick(m) {
        var symbol := Lower(m.s.value);
        var price := m.c.value;
        priceCache := priceCache[symbol := price];
        SaveCryptoPriceToDB(symbol, price, now, writeSucceeds);
        ApplyTickKeepsLowerKeys(old(priceCache), m);
      }
    }
  }
}
