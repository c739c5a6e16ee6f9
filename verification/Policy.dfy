/**
 The hard execution policy on single values: price guards, symbol whitelist, size, leverage and
 margin caps, and the approval token that binds a decision to its approval.
 */
module Policy {
  import opened Clock
  import opened DailyRisk
  import opened Lifecycle
  import opened Reals
  import opened Text

  datatype RiskParams = RiskParams(
    maxPositions: int, maxPositionSizeUsd: real, maxMarginUsagePct: real, dailyLoss: Limits,
    majorCoinLeverage: int, altcoinLeverage: int, minRiskReward: real, minConfidence: int,
    stopLossEnabled: bool, takeProfitEnabled: bool, allowedSymbols: seq<string>)

  datatype Decision = Decision(
    symbol: string, action: string, leverage: int, sizeUsd: real,
    entryPrice: real, stopLoss: real, takeProfit: real, confidence: int)

  predicate IsOpen(action: string) { action == "open_long" || action == "open_short" }
  predicate IsClose(action: string) { action == "close_long" || action == "close_short" }
  predicate IsNoop(action: string) { action == "hold" || action == "wait" }

  /** `isTradeAction`, which the command worker reports as "submitted". */
  predicate IsTradeAction(action: string) { IsOpen(Trim(action)) || IsClose(Trim(action)) }

  predicate IsBtcOrEth(symbol: string) {
    symbol == "BTC" || symbol == "ETH" || symbol == "BTCUSDT" || symbol == "ETHUSDT"
  }

  function LeverageCap(p: RiskParams, symbol: string): int {
    if IsBtcOrEth(symbol) then p.majorCoinLeverage else p.altcoinLeverage
  }

  /** The coins with the cap of the major ones. */
  const MAJOR_COINS := ["BTC", "ETH", "BTCUSDT", "ETHUSDT"]

  lemma CapByCoin(p: RiskParams, symbol: string)
    ensures LeverageCap(p, symbol) == if symbol in MAJOR_COINS then p.majorCoinLeverage else p.altcoinLeverage
  {
    assert MAJOR_COINS[0] == "BTC" && MAJOR_COINS[1] == "ETH";
    assert MAJOR_COINS[2] == "BTCUSDT" && MAJOR_COINS[3] == "ETHUSDT";
  }

  /** The bounds that a registered trader's configuration has passed. */
  predicate Validated(p: RiskParams) {
    && p.maxPositions > 0 && p.maxPositionSizeUsd > 0.0 && 0.0 <= p.maxMarginUsagePct <= 100.0
    && p.dailyLoss.maxUsd >= 0.0 && 0.0 <= p.dailyLoss.maxPct <= 100.0
    && p.majorCoinLeverage > 0 && p.altcoinLeverage > 0 && p.minRiskReward > 0.0 && 0 <= p.minConfidence <= 100
  }

  /* Price guards. */

  /** The guards as the code runs them; `action` is already trimmed and opens a position. */
  predicate PriceGuardsPass(p: RiskParams, d: Decision, action: string) {
    var long := action == "open_long";
    if d.entryPrice <= 0.0 then false
    else if p.stopLossEnabled && d.stopLoss <= 0.0 then false
    else if p.takeProfitEnabled && d.takeProfit <= 0.0 then false
    else if d.stopLoss > 0.0 && (if long then d.stopLoss >= d.entryPrice else d.stopLoss <= d.entryPrice) then false
    else if d.takeProfit > 0.0 && (if long then d.takeProfit <= d.entryPrice else d.takeProfit >= d.entryPrice) then
      false
    else if p.minRiskReward > 0.0 then
      if d.stopLoss <= 0.0 || d.takeProfit <= 0.0 then false
      else
        var risk := if long then d.entryPrice - d.stopLoss else d.stopLoss - d.entryPrice;
        var reward := if long then d.takeProfit - d.entryPrice else d.entryPrice - d.takeProfit;
        if risk <= 0.0 || reward <= 0.0 then false
        else !(reward / risk + 0.000000001 < p.minRiskReward)
    else true
  }

  /** A price level is absent or lies on the given side of the entry. */
  predicate Beyond(level: real, entry: real, above: bool) {
    level > 0.0 ==> if above then level > entry else level < entry
  }

  function Distance(a: real, b: real): real {
    if a > b then a - b else b - a
  }

  /** What the guards are for: stop and target on opposite sides of a positive entry, present where the
      configuration demands them, and the reward at least the configured multiple of the risk. */
  predicate WellPriced(p: RiskParams, d: Decision, long: bool) {
    && d.entryPrice > 0.0
    && (p.stopLossEnabled || p.minRiskReward > 0.0 ==> d.stopLoss > 0.0)
    && (p.takeProfitEnabled || p.minRiskReward > 0.0 ==> d.takeProfit > 0.0)
    && Beyond(d.stopLoss, d.entryPrice, !long)
    && Beyond(d.takeProfit, d.entryPrice, long)
    && (p.minRiskReward > 0.0 ==>
          Distance(d.takeProfit, d.entryPrice) >= (p.minRiskReward - 0.000000001) * Distance(d.stopLoss, d.entryPrice))
  }

  lemma PriceGuardsIff(p: RiskParams, d: Decision, action: string)
    requires IsOpen(action)
    ensures PriceGuardsPass(p, d, action) <==> WellPriced(p, d, action == "open_long")
  {
    var priced := d.entryPrice > 0.0 && d.stopLoss > 0.0 && d.takeProfit > 0.0;
    if priced && p.minRiskReward > 0.0 && d.stopLoss != d.entryPrice {
      RatioBound(Distance(d.takeProfit, d.entryPrice), Distance(d.stopLoss, d.entryPrice),
                 p.minRiskReward - 0.000000001);
    }
  }

  /* Whitelist. */

  /** An empty whitelist admits every symbol. */
  predicate Whitelisted(allowed: seq<string>, symbol: string) {
    NormalizeSymbol(symbol) != "" &&
    (allowed == [] || exists i :: 0 <= i < |allowed| && NormalizeSymbol(allowed[i]) == NormalizeSymbol(symbol))
  }

  method EnforceAllowedSymbol(allowed: seq<string>, symbol: string) returns (ok: bool)
    ensures ok <==> Whitelisted(allowed, symbol)
  {
    hide NormalizeSymbol;
    var key := NormalizeSymbol(symbol);
    if key == "" {
      return false;
    }
    if |allowed| == 0 {
      return true;
    }
    for i := 0 to |allowed|
      invariant forall k :: 0 <= k < i ==> NormalizeSymbol(allowed[k]) != key
    {
      if NormalizeSymbol(allowed[i]) == key {
        return true;
      }
    }
    return false;
  }

  /* Size and margin. */

  predicate SizeWithinCap(p: RiskParams, sizeUsd: real) {
    p.maxPositionSizeUsd > 0.0 ==> sizeUsd <= p.maxPositionSizeUsd + EPSILON
  }

  /** Margin in use after the order, as a percentage of equity. */
  function ProjectedMarginPct(alloc: Allocation, sizeUsd: real, leverage: int): real
    requires leverage > 0 && alloc.equity > 0.0
  {
    100.0 * ((alloc.marginUsed + sizeUsd / leverage as real) / alloc.equity)
  }

  predicate MarginWithinCap(p: RiskParams, alloc: Allocation, sizeUsd: real, leverage: int) {
    p.maxMarginUsagePct > 0.0 && leverage > 0 && alloc.equity > 0.0 ==>
      ProjectedMarginPct(alloc, sizeUsd, leverage) <= p.maxMarginUsagePct + EPSILON
  }

  /** `enforceSecondaryRisk`. */
  predicate SecondaryRiskPasses(p: RiskParams, alloc: Allocation, sizeUsd: real, leverage: int) {
    if p.maxPositionSizeUsd > 0.0 && sizeUsd > p.maxPositionSizeUsd + EPSILON then false
    else if p.maxMarginUsagePct > 0.0 && leverage > 0 && alloc.equity > 0.0 then
      var projected := alloc.marginUsed + sizeUsd / leverage as real;
      !(100.0 * (projected / alloc.equity) > p.maxMarginUsagePct + EPSILON)
    else true
  }

  lemma SecondaryRiskIff(p: RiskParams, alloc: Allocation, sizeUsd: real, leverage: int)
    ensures SecondaryRiskPasses(p, alloc, sizeUsd, leverage)
            <==> SizeWithinCap(p, sizeUsd) && MarginWithinCap(p, alloc, sizeUsd, leverage)
  {
  }

  lemma ShareBelow(part: real, whole: real, cap: real)
    requires whole > 0.0
    ensures part / whole <= cap <==> part <= cap * whole
  {
    QuotientTimes(part, whole);
    ProductOrder(cap, part / whole, whole);
  }

  /** Within the cap, the margin an order adds is affordable: equity covers what is used plus the
      order's own margin, up to the cap. */
  lemma MarginCapCoversOrder(p: RiskParams, alloc: Allocation, sizeUsd: real, leverage: int)
    requires p.maxMarginUsagePct > 0.0 && leverage > 0 && alloc.equity > 0.0
    ensures MarginWithinCap(p, alloc, sizeUsd, leverage)
            <==> 100.0 * (alloc.marginUsed + sizeUsd / leverage as real)
                 <= (p.maxMarginUsagePct + EPSILON) * alloc.equity
  {
    var projected, cap := alloc.marginUsed + sizeUsd / leverage as real, (p.maxMarginUsagePct + EPSILON) / 100.0;
    RatioBound(projected, alloc.equity, cap);
    ShareBelow(projected, alloc.equity, cap);
  }

  /* The approval token. */

  const TOKEN_TTL := 30_000_000_000

  datatype Token = Token(traderId: string, symbol: string, action: string, notionalUsd: real, leverage: int,
                         expiresAt: Time)

  predicate TokenValid(t: Token, traderId: string, d: Decision, now: Time) {
    && now <= t.expiresAt
    && t.traderId == traderId
    && t.action == Trim(d.action)
    && t.symbol == NormalizeSymbol(d.symbol)
    && Distance(t.notionalUsd, d.sizeUsd) <= EPSILON
    && t.leverage == d.leverage
  }

  /** A token is bound: it fits only decisions of its trader with the same symbol and action, the same
      leverage, and sizes that differ by at most the tolerance on either side, and only until it expires. */
  lemma TokenBinds(t: Token, id: string, d: Decision, now: Time, other: string, e: Decision, then': Time)
    requires TokenValid(t, id, d, now) && TokenValid(t, other, e, then')
    ensures other == id && NormalizeSymbol(e.symbol) == NormalizeSymbol(d.symbol) && Trim(e.action) == Trim(d.action)
    ensures e.leverage == d.leverage && -0.000002 <= e.sizeUsd - d.sizeUsd <= 0.000002
    ensures now <= t.expiresAt
  {
    hide NormalizeSymbol, Trim;
  }
}
