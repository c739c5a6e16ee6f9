/**
 From an AI decision to an order: approve against hard policy, bind the approval to a token, sync
 the account, check again and submit. Exchange replies and clock readings are inputs.
 */
module Execution {
  import opened Clock
  import opened DailyRisk
  import opened Lifecycle
  import opened Options
  import opened Policy
  import opened Reals
  import opened Text
  import opened Trading

  datatype Account = Account(equity: real, marginUsed: real, unrealizedPnl: real)

  /** The exchange's answer to an order: no answer, a refusal, or an acceptance with its fill, where a
      price or quantity that is missing or does not parse is zero. */
  datatype OrderReply = NoReply | Refused | Accepted(fillPrice: real, fillQty: real)

  /** Everything the exchange and the market say during one execution. */
  datatype Replies = Replies(
    account: Option<Account>, positions: Option<seq<ExchangePosition>>, assetKnown: bool, leverageSet: bool,
    marketPrice: Option<real>, takesMarketOrders: bool, order: OrderReply)

  /** Clock readings at approval, token validation, account sync and the last risk check. */
  datatype Times = Times(approve: Time, validate: Time, sync: Time, risk: Time)

  /** What is handed to the exchange provider. A market order names no price: the provider takes its own
      reference price and moves it by the slippage. */
  datatype Submission =
    | LimitOrder(symbol: string, isBuy: bool, quantity: real, price: real, leverage: int)
    | MarketOrder(symbol: string, isBuy: bool, quantity: real, slippage: real, leverage: int)
    | Close(symbol: string)

  predicate IsOpening(order: Submission) { order.LimitOrder? || order.MarketOrder? }

  /** What the policy sees of the manager and a trader at one moment. */
  datatype Moment = Moment(owners: map<string, string>, book: Book, life: Life)

  predicate SymbolFree(owners: map<string, string>, symbol: string) {
    NormalizeSymbol(symbol) != "" && (NormalizeSymbol(symbol) in owners ==> owners[NormalizeSymbol(symbol)] == "")
  }

  predicate MayClose(owners: map<string, string>, id: string, symbol: string) {
    var key := NormalizeSymbol(symbol);
    key != "" && (key in owners ==> owners[key] == "" || owners[key] == id)
  }

  predicate HasCapacity(p: RiskParams, openCount: nat) {
    p.maxPositions > 0 ==> openCount < p.maxPositions
  }

  /** The leverage an open order goes out with: the decision's, or the cap when it names none. */
  function EffectiveLeverage(p: RiskParams, d: Decision): int {
    if d.leverage <= 0 then LeverageCap(p, NormalizeSymbol(d.symbol)) else d.leverage
  }

  /** The account-dependent part of the policy: whitelist, daily loss, size and margin. */
  predicate RiskPasses(p: RiskParams, life: Life, d: Decision, leverage: int, now: Time) {
    && Whitelisted(p.allowedSymbols, d.symbol)
    && !Rejects(p.dailyLoss, life.daily, life.alloc.equity, now)
    && SizeWithinCap(p, d.sizeUsd)
    && MarginWithinCap(p, life.alloc, d.sizeUsd, leverage)
  }

  /** The part of the policy that depends on the decision alone. */
  predicate DecisionSound(p: RiskParams, d: Decision) {
    && d.sizeUsd > 0.0
    && WellPriced(p, d, Trim(d.action) == "open_long")
    && (p.minConfidence > 0 ==> d.confidence >= p.minConfidence)
    && SizeWithinCap(p, d.sizeUsd)
    && (LeverageCap(p, NormalizeSymbol(d.symbol)) > 0 ==>
          EffectiveLeverage(p, d) <= LeverageCap(p, NormalizeSymbol(d.symbol)))
  }

  predicate OpenApproved(p: RiskParams, at: Moment, d: Decision, now: Time) {
    && DecisionSound(p, d)
    && SymbolFree(at.owners, d.symbol)
    && HasCapacity(p, |at.book|)
    && RiskPasses(p, at.life, d, EffectiveLeverage(p, d), now)
  }

  predicate Approved(p: RiskParams, id: string, modeAllowed: bool, at: Moment, d: Decision, now: Time) {
    var action := Trim(d.action);
    && d.sizeUsd >= 0.0
    && (IsOpen(action) || IsClose(action) || IsNoop(action))
    && (IsNoop(action) || (NormalizeSymbol(d.symbol) != "" && modeAllowed))
    && (IsOpen(action) ==> OpenApproved(p, at, d, now))
    && (IsClose(action) ==> MayClose(at.owners, id, d.symbol))
  }

  /** What holds of an open order at the moment it leaves, against the state after the pre-submit
      sync: the symbol is unowned, there is room for another position, the symbol is whitelisted, the
      day's loss is within its limit, size and projected margin are within their caps, and the
      decision is sound. */
  predicate SafeToOpen(p: RiskParams, at: Moment, d: Decision, leverage: int, now: Time) {
    && SymbolFree(at.owners, d.symbol)
    && HasCapacity(p, |at.book|)
    && RiskPasses(p, at.life, d, leverage, now)
  }

  ghost function Now(m: Manager, trader: VirtualTrader): Moment
    reads m, trader
  {
    Moment(m.owners, trader.positions, trader.CurrentLife())
  }

  method SymbolAvailable(m: Manager, symbol: string) returns (ok: bool)
    ensures ok <==> SymbolFree(m.owners, symbol)
  {
    hide NormalizeSymbol;
    var key := NormalizeSymbol(symbol);
    ok := key != "" && m.OwnerOf(key) == "";
  }

  /** The last gate trips the breaker on a whitelisted symbol and a day's loss beyond its limit. */
  predicate GateTrips(p: RiskParams, life: Life, d: Decision, now: Time) {
    Whitelisted(p.allowedSymbols, d.symbol) && Rejects(p.dailyLoss, life.daily, life.alloc.equity, now)
  }

  /** The trader once its breaker has tripped on a daily loss, with the amounts in the reason. */
  function TrippedByLoss(p: RiskParams, l: Life, now: Time): Life {
    Tripped(l, LossReason(p.dailyLoss, l.daily, l.alloc.equity, now), now)
  }

  /** The last gate before an order; a daily loss beyond the limit trips the breaker. */
  method EnforceOpenRisk(m: Manager, trader: VirtualTrader, d: Decision, leverage: int, now: Time) returns (ok: bool)
    modifies trader`state, trader`pauseUntil, trader`circuit
    ensures ok <==> RiskPasses(trader.params, old(trader.CurrentLife()), d, leverage, now)
    ensures var l := old(trader.CurrentLife());
      trader.CurrentLife() == if GateTrips(trader.params, l, d, now) then TrippedByLoss(trader.params, l, now) else l
    ensures m.Books() == old(m.Books())
  {
    hide NormalizeSymbol, Whitelisted, Rejects, Tripped, LossReason, SizeWithinCap, MarginWithinCap,
      SecondaryRiskPasses;
    var allowed := EnforceAllowedSymbol(trader.params.allowedSymbols, d.symbol);
    if !allowed {
      return false;
    }
    if Rejects(trader.params.dailyLoss, trader.daily, trader.alloc.equity, now) {
      trader.TripCircuit(LossReason(trader.params.dailyLoss, trader.daily, trader.alloc.equity, now), now);
      return false;
    }
    SecondaryRiskIff(trader.params, trader.alloc, d.sizeUsd, leverage);
    ok := SecondaryRiskPasses(trader.params, trader.alloc, d.sizeUsd, leverage);
  }

  /** Refreshes a trader from the exchange: account figures first, then the book. */
  method Sync(m: Manager, traderId: string, account: Option<Account>, reply: Option<seq<ExchangePosition>>, now: Time)
    returns (ok: bool)
    requires m.Valid() && Covered(m.Books(), m.owners)
    modifies m`owners, m.traders.Values`positions, m.traders.Values`alloc, m.traders.Values`daily,
      m.traders.Values`circuit
    ensures Covered(m.Books(), m.owners) && (old(Agree(m.Books(), m.owners)) ==> Agree(m.Books(), m.owners))
    ensures ok <==>
      traderId in m.traders && account.Some? && reply.Some? &&
      NoMismatch(old(m.traders[traderId].positions), reply.value) && !Reports(reply.value, "")
    ensures ok ==>
      Reconciled(old(m.traders[traderId].positions), old(m.owners), m.traders[traderId].positions, m.owners, traderId,
                 reply.value)
    ensures traderId in m.traders && account.Some? ==>
      var a := account.value;
      m.traders[traderId].CurrentLife() ==
        AccountSynced(old(m.traders[traderId].CurrentLife()), a.equity, a.marginUsed, a.unrealizedPnl, now)
    ensures forall id :: id in m.traders && (id != traderId || account.None?) ==>
      m.traders[id].CurrentLife() == old(m.traders[id].CurrentLife())
    ensures account.None? ==> m.owners == old(m.owners)
    ensures forall id :: id in m.traders && (id != traderId || account.None?) ==>
      m.traders[id].positions == old(m.traders[id].positions)
  {
    hide NormalizeSymbol, Agree, Covered, Reconciled, NoMismatch, Reports, AccountSynced;
    if traderId !in m.traders || account.None? {
      return false;
    }
    var t := m.traders[traderId];
    t.ApplyAccount(account.value.equity, account.value.marginUsed, account.value.unrealizedPnl, now);
    ghost var before := m.Books();
    assert before == old(m.Books());
    ok := m.Reconcile(traderId, reply);
    forall id | id in m.traders && id != traderId
      ensures m.traders[id].positions == old(m.traders[id].positions)
    {
      assert m.Books()[id] == before[id];
    }
  }

  /** The checks of an open that come before the last gate. */
  predicate ReachesRiskGate(p: RiskParams, modeAllowed: bool, at: Moment, d: Decision) {
    modeAllowed && DecisionSound(p, d) && SymbolFree(at.owners, d.symbol) && HasCapacity(p, |at.book|)
  }

  /** An approval attempt that reaches a day's loss beyond its limit trips the breaker. */
  predicate ApprovalTrips(p: RiskParams, modeAllowed: bool, at: Moment, d: Decision, now: Time) {
    && IsOpen(Trim(d.action)) && ReachesRiskGate(p, modeAllowed, at, d)
    && GateTrips(p, at.life, d, now)
  }

  /** The decision an approval hands on, with the leverage it will be executed at. */
  function Completed(p: RiskParams, d: Decision): Decision {
    if IsOpen(Trim(d.action)) then d.(leverage := EffectiveLeverage(p, d)) else d
  }

  function TokenFor(id: string, d: Decision, now: Time): Token {
    Token(id, NormalizeSymbol(d.symbol), Trim(d.action), d.sizeUsd, d.leverage, now + TOKEN_TTL)
  }

  method ApproveOpen(m: Manager, trader: VirtualTrader, d: Decision, now: Time) returns (ok: bool)
    requires IsOpen(Trim(d.action)) && trader.modeAllowed
    modifies trader`state, trader`pauseUntil, trader`circuit
    ensures ok <==> OpenApproved(trader.params, old(Now(m, trader)), d, now)
    ensures CoinCap(trader.params, d.symbol) > 0 && d.leverage > CoinCap(trader.params, d.symbol) ==> !ok
    ensures trader.CurrentLife() ==
      if ApprovalTrips(trader.params, true, old(Now(m, trader)), d, now)
      then TrippedByLoss(trader.params, old(trader.CurrentLife()), now) else old(trader.CurrentLife())
    ensures m.Books() == old(m.Books())
  {
    hide NormalizeSymbol, Trim, WellPriced, PriceGuardsPass, Whitelisted, SizeWithinCap, MarginWithinCap, Rejects,
      TrippedByLoss, LeverageCap, SymbolFree;
    var p := trader.params;
    ok := false;
    if d.sizeUsd <= 0.0 {
      return;
    }
    PriceGuardsIff(p, d, Trim(d.action));
    if !PriceGuardsPass(p, d, Trim(d.action)) {
      return;
    }
    if p.minConfidence > 0 && d.confidence < p.minConfidence {
      return;
    }
    if !SizeWithinCap(p, d.sizeUsd) {
      return;
    }
    var cap := LeverageCap(p, NormalizeSymbol(d.symbol));
    var leverage := if d.leverage <= 0 then cap else d.leverage;
    if cap > 0 && leverage > cap {
      return;
    }
    var free := SymbolAvailable(m, d.symbol);
    if !free || (p.maxPositions > 0 && |trader.positions| >= p.maxPositions) {
      return;
    }
    CapByCoin(p, NormalizeSymbol(d.symbol));
    ok := EnforceOpenRisk(m, trader, d, leverage, now);
  }

  /** Applies the hard policy. A token is issued exactly for an approved decision, and binds its trader,
      symbol, action, size and leverage. */
  method Approve(m: Manager, trader: VirtualTrader, d: Decision, now: Time)
    returns (token: Option<Token>, completed: Decision)
    modifies trader`state, trader`pauseUntil, trader`circuit
    ensures token.Some? <==> Approved(trader.params, trader.id, trader.modeAllowed, old(Now(m, trader)), d, now)
    ensures token.Some? ==>
      completed == Completed(trader.params, d) && token.value == TokenFor(trader.id, completed, now)
    ensures trader.CurrentLife() ==
      if ApprovalTrips(trader.params, trader.modeAllowed, old(Now(m, trader)), d, now)
      then TrippedByLoss(trader.params, old(trader.CurrentLife()), now) else old(trader.CurrentLife())
    ensures m.Books() == old(m.Books())
  {
    hide NormalizeSymbol, Trim, OpenApproved, RiskPasses, EffectiveLeverage, WellPriced, Whitelisted, SizeWithinCap,
      Rejects, TrippedByLoss, MayClose;
    var action := Trim(d.action);
    token, completed := None, d;
    if d.sizeUsd < 0.0 || !(IsOpen(action) || IsClose(action) || IsNoop(action)) {
      return;
    }
    if !IsNoop(action) && (NormalizeSymbol(d.symbol) == "" || !trader.modeAllowed) {
      return;
    }
    if IsOpen(action) {
      var ok := ApproveOpen(m, trader, d, now);
      if !ok {
        return;
      }
      completed := d.(leverage := EffectiveLeverage(trader.params, d));
    } else if IsClose(action) && !MayClose(m.owners, trader.id, d.symbol) {
      return;
    }
    token := Some(TokenFor(trader.id, completed, now));
  }

  /** The leverage a decision may have, and the one it gets when it names none, by its coin. */
  function CoinCap(p: RiskParams, symbol: string): int {
    if NormalizeSymbol(symbol) in MAJOR_COINS then p.majorCoinLeverage else p.altcoinLeverage
  }

  /** A decision that names a leverage above the cap of its coin is not sound, and so not approved. */
  lemma LeverageAboveCapRefused(p: RiskParams, at: Moment, d: Decision, now: Time)
    requires CoinCap(p, d.symbol) > 0 && d.leverage > CoinCap(p, d.symbol)
    ensures !DecisionSound(p, d) && !OpenApproved(p, at, d, now)
  {
    hide NormalizeSymbol, WellPriced, Trim;
    CapByCoin(p, NormalizeSymbol(d.symbol));
  }

  /** What a sound decision is executed at: the leverage it names, or the cap of its coin; never more. */
  lemma SoundLeverage(p: RiskParams, d: Decision)
    requires DecisionSound(p, d)
    ensures EffectiveLeverage(p, d) == if d.leverage > 0 then d.leverage else CoinCap(p, d.symbol)
    ensures CoinCap(p, d.symbol) > 0 ==> EffectiveLeverage(p, d) <= CoinCap(p, d.symbol)
  {
    hide NormalizeSymbol, WellPriced, Trim;
    CapByCoin(p, NormalizeSymbol(d.symbol));
  }

  /** With caps of 20 for major coins and 10 for others, a leverage of 15 is refused for SOL, and is no
      obstacle for BTC. */
  lemma CapsAreByCoin(p: RiskParams, d: Decision)
    requires p.majorCoinLeverage == 20 && p.altcoinLeverage == 10 && d.leverage == 15
    ensures d.symbol == "SOL" ==> !DecisionSound(p, d)
    ensures d.symbol == "BTC" ==> CoinCap(p, d.symbol) == 20 && EffectiveLeverage(p, d) <= CoinCap(p, d.symbol)
  {
    assert IsTrimmed("SOL") && ToUpper("SOL") == "SOL" && IsTrimmed("BTC") && ToUpper("BTC") == "BTC";
    hide NormalizeSymbol, WellPriced, Trim;
    CapByCoin(p, NormalizeSymbol(d.symbol));
    assert MAJOR_COINS[0] == "BTC";
  }

  /* Submission. */

  /** The price of an open order: the decision's, or the market's when it names none. */
  function OrderPrice(d: Decision, replies: Replies): real {
    if d.entryPrice > 0.0 then d.entryPrice
    else if replies.marketPrice.Some? then replies.marketPrice.value else 0.0
  }

  predicate StyleSupported(style: OrderStyle, replies: Replies) {
    style == LimitIoc || (style == MarketIoc && replies.takesMarketOrders)
  }

  /** What an open order still needs once the risk gate has let it through. */
  predicate Placeable(style: OrderStyle, d: Decision, leverage: int, replies: Replies) {
    && replies.assetKnown && (leverage > 0 ==> replies.leverageSet)
    && OrderPrice(d, replies) > 0.0 && d.sizeUsd > 0.0 && StyleSupported(style, replies)
  }

  const DEFAULT_SLIPPAGE_BPS := 50.0

  /** The slippage of a trader's market orders, as a fraction. */
  function SlippageOf(bps: real): (fraction: real)
    ensures fraction > 0.0
    ensures fraction * 10000.0 == if bps > 0.0 then bps else 50.0
  {
    if bps / 10000.0 <= 0.0 then DEFAULT_SLIPPAGE_BPS / 10000.0 else bps / 10000.0
  }

  /** The order buys or sells the quantity whose value at the order price is the decision's size. Only a
      limit order carries that price. */
  predicate Carries(order: Submission, trader: VirtualTrader, d: Decision, leverage: int, replies: Replies) {
    && IsOpening(order) && order.symbol == d.symbol && order.isBuy == (d.action == "open_long")
    && order.leverage == leverage && order.quantity > 0.0 && order.quantity * OrderPrice(d, replies) == d.sizeUsd
    && (order.LimitOrder? <==> trader.style == LimitIoc)
    && (order.LimitOrder? ==> order.price == OrderPrice(d, replies))
    && (order.MarketOrder? ==> order.slippage == SlippageOf(trader.slippageBps))
  }

  /** The position booked for an accepted order: the reported fill, or the order itself at the order price
      where the reply reports none. */
  predicate BookedFor(pos: VirtualPosition, order: Submission, price: real, reply: OrderReply) {
    && IsOpening(order) && reply.Accepted?
    && pos.symbol == order.symbol && pos.leverage == order.leverage && (pos.side == Long <==> order.isBuy)
    && pos.quantity == (if reply.fillQty > 0.0 then reply.fillQty else order.quantity)
    && pos.entryPrice == (if reply.fillPrice > 0.0 then reply.fillPrice else price)
    && pos.notionalUsd == pos.quantity * pos.entryPrice
  }

  lemma QuantityCarriesSize(size: real, price: real)
    requires price > 0.0
    ensures size / price * price == size && (size / price > 0.0 <==> size > 0.0)
  {
    QuotientTimes(size, price);
    ProductOrder(size / price, 0.0, price);
  }

  /** Resolves the asset, sets the leverage, prices, sizes and sends an open order. */
  method Place(trader: VirtualTrader, d: Decision, leverage: int, replies: Replies)
    returns (sent: Option<Submission>, filled: Option<VirtualPosition>, askedMarket: bool)
    ensures sent.Some? <==> Placeable(trader.style, d, leverage, replies)
    ensures sent.Some? <==>
      && replies.assetKnown && (leverage > 0 ==> replies.leverageSet) && d.sizeUsd > 0.0
      && (d.entryPrice > 0.0 || (replies.marketPrice.Some? && replies.marketPrice.value > 0.0))
      && (trader.style == LimitIoc || (trader.style == MarketIoc && replies.takesMarketOrders))
    ensures sent.Some? ==> Carries(sent.value, trader, d, leverage, replies)
    ensures filled.Some? <==> sent.Some? && replies.order.Accepted?
    ensures filled.Some? ==>
      && BookedFor(filled.value, sent.value, OrderPrice(d, replies), replies.order)
      && filled.value.quantity > 0.0 && filled.value.symbol == d.symbol
    ensures askedMarket ==> d.entryPrice <= 0.0
  {
    hide Carries, BookedFor;
    sent, filled, askedMarket := None, None, false;
    if !replies.assetKnown || (leverage > 0 && !replies.leverageSet) {
      return;
    }
    var price := d.entryPrice;
    if price <= 0.0 {
      askedMarket := true;
      if replies.marketPrice.None? {
        return;
      }
      price := replies.marketPrice.value;
    }
    if price <= 0.0 {
      return;
    }
    QuantityCarriesSize(d.sizeUsd, price);
    var quantity := d.sizeUsd / price;
    if quantity <= 0.0 {
      return;
    }
    if trader.style == OtherStyle || (trader.style == MarketIoc && !replies.takesMarketOrders) {
      return;
    }
    var isBuy := d.action == "open_long";
    if trader.style == MarketIoc {
      sent := Some(MarketOrder(d.symbol, isBuy, quantity, SlippageOf(trader.slippageBps), leverage));
    } else {
      sent := Some(LimitOrder(d.symbol, isBuy, quantity, price, leverage));
    }
    OrderCarries(sent.value, trader, d, leverage, replies, quantity, price);
    if replies.order.Accepted? {
      var position := Fill(sent.value, price, replies.order);
      filled := Some(position);
    }
  }

  lemma OrderCarries(order: Submission, trader: VirtualTrader, d: Decision, leverage: int, replies: Replies,
                     quantity: real, price: real)
    requires price == OrderPrice(d, replies) && quantity > 0.0 && quantity * price == d.sizeUsd
    requires trader.style != OtherStyle
    requires order ==
      var isBuy := d.action == "open_long";
      if trader.style == MarketIoc then MarketOrder(d.symbol, isBuy, quantity, SlippageOf(trader.slippageBps), leverage)
      else LimitOrder(d.symbol, isBuy, quantity, price, leverage)
    ensures Carries(order, trader, d, leverage, replies)
  {
  }

  /** The position booked for an accepted order; `price` is the price that sized it. */
  method Fill(order: Submission, price: real, reply: OrderReply) returns (position: VirtualPosition)
    requires IsOpening(order) && reply.Accepted? && order.quantity > 0.0
    ensures BookedFor(position, order, price, reply) && position.quantity > 0.0 && position.symbol == order.symbol
  {
    var fillQty, fillPrice := order.quantity, price;
    if reply.fillQty > 0.0 {
      fillQty := reply.fillQty;
    }
    if reply.fillPrice > 0.0 {
      fillPrice := reply.fillPrice;
    }
    var side := if order.isBuy then Long else Short;
    position := VirtualPosition(order.symbol, side, fillQty, fillQty * fillPrice, fillPrice, order.leverage);
  }

  /** The leverage at execution; the symbol is not normalised here. */
  function ExecutedLeverage(p: RiskParams, d: Decision): int {
    if d.leverage <= 0 then LeverageCap(p, d.symbol) else d.leverage
  }

  lemma CarriedLeverage(order: Submission, trader: VirtualTrader, d: Decision, replies: Replies)
    requires Carries(order, trader, d, ExecutedLeverage(trader.params, d), replies)
    ensures order.leverage ==
      if d.leverage > 0 then d.leverage
      else if d.symbol in MAJOR_COINS then trader.params.majorCoinLeverage else trader.params.altcoinLeverage
  {
    CapByCoin(trader.params, d.symbol);
  }

  /** Whether the account and the positions could be fetched and the positions match the book. */
  ghost predicate SyncSucceeds(registered: Option<Book>, replies: Replies) {
    && registered.Some? && replies.account.Some? && replies.positions.Some?
    && NoMismatch(registered.value, replies.positions.value) && !Reports(replies.positions.value, "")
  }

  /** The book of the trader registered under an id. */
  ghost function RegisteredBook(m: Manager, id: string): Option<Book>
    reads m, m.traders.Values
  {
    if id in m.traders then Some(m.traders[id].positions) else None
  }

  /** Looks for a free symbol, syncs and looks again. */
  method PrepareOpen(m: Manager, trader: VirtualTrader, d: Decision, replies: Replies, now: Time) returns (ready: bool)
    requires m.Valid() && Covered(m.Books(), m.owners)
    modifies m`owners, m.traders.Values`positions, m.traders.Values`alloc, m.traders.Values`daily,
      m.traders.Values`circuit
    ensures Covered(m.Books(), m.owners) && (old(Agree(m.Books(), m.owners)) ==> Agree(m.Books(), m.owners))
    ensures ready <==>
      SymbolFree(old(m.owners), d.symbol) && SyncSucceeds(old(RegisteredBook(m, trader.id)), replies) &&
      SymbolFree(m.owners, d.symbol) && HasCapacity(trader.params, |trader.positions|)
    ensures ready && m.IsRegistered(trader) ==>
      IsSynced(old(trader.CurrentLife()), Now(m, trader), trader.id, replies, now)
  {
    hide NormalizeSymbol, Agree, Covered, Mirrors, Stale, NoMismatch, Reports, AccountSynced, SymbolFree, HasCapacity,
      Manager.Books;
    var free := SymbolAvailable(m, d.symbol);
    if !free {
      return false;
    }
    var synced := Sync(m, trader.id, replies.account, replies.positions, now);
    if !synced {
      return false;
    }
    free := SymbolAvailable(m, d.symbol);
    ready := free && HasCapacity(trader.params, |trader.positions|);
  }

  /** The state a successful sync leaves: the account's figures in the allocation and the daily baseline,
      and a book that mirrors the exchange. */
  ghost predicate IsSynced(before: Life, at: Moment, id: string, replies: Replies, now: Time) {
    && replies.account.Some? && replies.positions.Some?
    && at.life == AccountSynced(before, replies.account.value.equity, replies.account.value.marginUsed,
                                replies.account.value.unrealizedPnl, now)
    && Mirrors(at.book, at.owners, id, replies.positions.value)
  }

  /** The trader's state once an accepted order is booked. */
  ghost predicate Booked(at: Moment, after: Moment, id: string, d: Decision, order: Submission, replies: Replies) {
    var key := NormalizeSymbol(d.symbol);
    && key in after.book && BookedFor(after.book[key], order, OrderPrice(d, replies), replies.order)
    && after == at.(owners := at.owners[key := id], book := at.book[key := after.book[key]])
  }

  /** Judges the risk once more, sends the order and books its fill. */
  method SubmitOpen(m: Manager, trader: VirtualTrader, d: Decision, leverage: int, replies: Replies, now: Time)
    returns (ok: bool, sent: Option<Submission>, askedMarket: bool)
    requires m.Valid() && SymbolFree(m.owners, d.symbol) && Covered(m.Books(), m.owners)
    modifies m`owners, trader`positions, trader`state, trader`pauseUntil, trader`circuit
    ensures trader.id != "" ==> Covered(m.Books(), m.owners)
    ensures m.IsRegistered(trader) && old(Agree(m.Books(), m.owners)) ==> Agree(m.Books(), m.owners)
    ensures sent.Some? <==>
      && RiskPasses(trader.params, old(trader.CurrentLife()), d, leverage, now)
      && Placeable(trader.style, d, leverage, replies)
    ensures sent.Some? ==> Carries(sent.value, trader, d, leverage, replies)
    ensures ok <==> sent.Some? && replies.order.Accepted?
    ensures ok ==> Booked(old(Now(m, trader)), Now(m, trader), trader.id, d, sent.value, replies)
    ensures !ok ==> m.owners == old(m.owners) && trader.positions == old(trader.positions)
    ensures var l := old(trader.CurrentLife());
      trader.CurrentLife() == if GateTrips(trader.params, l, d, now) then TrippedByLoss(trader.params, l, now) else l
    ensures askedMarket ==> d.entryPrice <= 0.0
  {
    hide NormalizeSymbol, Agree, Covered, Placeable, BookedFor, Manager.Books, Rejects, Whitelisted, SizeWithinCap,
      MarginWithinCap;
    ok, sent, askedMarket := false, None, false;
    OwnersAreNamed(m);
    var risk := EnforceOpenRisk(m, trader, d, leverage, now);
    if !risk {
      return;
    }
    var filled;
    sent, filled, askedMarket := Place(trader, d, leverage, replies);
    if filled.Some? {
      ok := m.Assign(trader, filled.value);
    }
  }

  /** While books and index agree no symbol is owned by the empty id. */
  lemma OwnersAreNamed(m: Manager)
    requires m.Valid() && Covered(m.Books(), m.owners)
    ensures forall key :: key in m.owners ==> m.owners[key] != ""
  {
  }

  /** The open half of execution. `at` is the state the sync left, which is the state the order leaves
      from; it is judged again there in full. */
  method ExecuteOpen(m: Manager, trader: VirtualTrader, d: Decision, replies: Replies, times: Times)
    returns (ok: bool, sent: Option<Submission>, askedMarket: bool, ghost at: Moment)
    requires m.Valid() && Covered(m.Books(), m.owners)
    modifies m`owners, m.traders.Values, trader
    ensures trader.id != "" ==> Covered(m.Books(), m.owners)
    ensures m.IsRegistered(trader) && old(Agree(m.Books(), m.owners)) ==> Agree(m.Books(), m.owners)
    ensures sent.Some? <==>
      SymbolFree(old(m.owners), d.symbol) && SyncSucceeds(old(RegisteredBook(m, trader.id)), replies) &&
      SafeToOpen(trader.params, at, d, ExecutedLeverage(trader.params, d), times.risk) &&
      Placeable(trader.style, d, ExecutedLeverage(trader.params, d), replies)
    ensures sent.Some? ==> Carries(sent.value, trader, d, ExecutedLeverage(trader.params, d), replies)
    ensures sent.Some? ==>
      sent.value.leverage ==
        if d.leverage > 0 then d.leverage
        else if d.symbol in MAJOR_COINS then trader.params.majorCoinLeverage else trader.params.altcoinLeverage
    ensures sent.Some? && m.IsRegistered(trader) ==>
      IsSynced(old(trader.CurrentLife()), at, trader.id, replies, times.sync)
    ensures ok <==> sent.Some? && replies.order.Accepted?
    ensures ok ==> Booked(at, Now(m, trader), trader.id, d, sent.value, replies)
    ensures !ok ==> m.owners == at.owners && trader.positions == at.book
    ensures sent.Some? ==> trader.CurrentLife() == at.life
    ensures trader.CurrentLife() ==
      if SymbolFree(old(m.owners), d.symbol) && SyncSucceeds(old(RegisteredBook(m, trader.id)), replies) &&
         SymbolFree(at.owners, d.symbol) && HasCapacity(trader.params, |at.book|) &&
         GateTrips(trader.params, at.life, d, times.risk)
      then TrippedByLoss(trader.params, at.life, times.risk) else at.life
    ensures askedMarket ==> d.entryPrice <= 0.0
  {
    hide NormalizeSymbol, Agree, Covered, SyncSucceeds, IsSynced, Booked, Placeable, Carries, SymbolFree, HasCapacity,
      Manager.Books, ExecutedLeverage, TrippedByLoss, Whitelisted, Rejects, SizeWithinCap, MarginWithinCap;
    ok, sent, askedMarket := false, None, false;
    var ready := PrepareOpen(m, trader, d, replies, times.sync);
    at := Now(m, trader);
    if ready {
      ok, sent, askedMarket := SubmitOpen(m, trader, d, ExecutedLeverage(trader.params, d), replies, times.risk);
      if sent.Some? {
        CarriedLeverage(sent.value, trader, d, replies);
      }
    }
  }

  /** No other registered trader holds the symbol. */
  ghost predicate HeldByNoOther(books: map<string, Book>, id: string, key: string) {
    forall other :: other in books && other != id ==> key !in books[other]
  }

  /** What a trader may close nobody else holds, and what it holds it may close. */
  lemma CloseIsOwn(books: map<string, Book>, owners: map<string, string>, id: string, symbol: string)
    requires Covered(books, owners)
    ensures MayClose(owners, id, symbol) ==> HeldByNoOther(books, id, NormalizeSymbol(symbol))
    ensures id in books && NormalizeSymbol(symbol) in books[id] ==> MayClose(owners, id, symbol)
  {
    hide NormalizeSymbol;
    var key := NormalizeSymbol(symbol);
    forall other | other in books && key in books[other]
      ensures Owned(owners, other, key) && key != "" && owners[key] != ""
    {
      assert Held(books, other, key);
    }
  }

  lemma OwnerHoldsAlone(books: map<string, Book>, owners: map<string, string>, id: string, key: string)
    requires Covered(books, owners) && key in owners && owners[key] == id
    ensures HeldByNoOther(books, id, key)
  {
    hide NormalizeSymbol;
    forall other | other in books && key in books[other]
      ensures other == id
    {
      assert Held(books, other, key);
    }
  }

  lemma OneMoreEntry(book: Book, key: string, pos: VirtualPosition)
    ensures |book[key := pos]| <= |book| + 1
  {
    var more := book[key := pos];
    assert more.Keys == book.Keys + {key};
  }

  /** The close half of execution: only the owner may close, or anyone while nobody owns the symbol. */
  method ExecuteClose(m: Manager, trader: VirtualTrader, d: Decision, replies: Replies)
    returns (ok: bool, sent: Option<Submission>)
    requires m.Valid() && Covered(m.Books(), m.owners)
    modifies m`owners, m.traders.Values`positions
    ensures Covered(m.Books(), m.owners) && (old(Agree(m.Books(), m.owners)) ==> Agree(m.Books(), m.owners))
    ensures sent == if MayClose(old(m.owners), trader.id, d.symbol) then Some(Close(d.symbol)) else None
    ensures sent.Some? ==> HeldByNoOther(old(m.Books()), trader.id, NormalizeSymbol(d.symbol))
    ensures m.IsRegistered(trader) && NormalizeSymbol(d.symbol) in old(trader.positions) ==> sent.Some?
    ensures ok <==> sent.Some? && replies.order.Accepted?
    ensures m.owners == if ok then old(m.owners) - {NormalizeSymbol(d.symbol)} else old(m.owners)
    ensures !ok ==> trader.positions == old(trader.positions)
    ensures m.Books() ==
      if ok && trader.id in m.traders
      then old(m.Books())[trader.id := old(m.Books())[trader.id] - {NormalizeSymbol(d.symbol)}] else old(m.Books())
  {
    hide NormalizeSymbol, Agree, Covered, Manager.Books, HeldByNoOther;
    ok, sent := false, None;
    CloseIsOwn(m.Books(), m.owners, trader.id, d.symbol);
    if m.IsRegistered(trader) {
      m.OwnBook(trader);
    }
    if !MayClose(m.owners, trader.id, d.symbol) {
      return;
    }
    sent := Some(Close(d.symbol));
    if replies.order.Accepted? {
      m.Release(trader.id, d.symbol);
      ok := true;
    }
  }

  /** Whether an open order leaves, given that the token is valid; `at` is the state after the sync. */
  ghost predicate OpenLeaves(owners: map<string, string>, registered: Option<Book>, at: Moment, trader: VirtualTrader,
                             d: Decision, replies: Replies, now: Time) {
    && IsOpen(d.action) && d.symbol != "" && SymbolFree(owners, d.symbol) && SyncSucceeds(registered, replies)
    && SafeToOpen(trader.params, at, d, ExecutedLeverage(trader.params, d), now)
    && Placeable(trader.style, d, ExecutedLeverage(trader.params, d), replies)
  }

  /** Executes an approved decision. The action is compared untrimmed here. */
  method Execute(m: Manager, trader: VirtualTrader, d: Decision, token: Token, replies: Replies, times: Times)
    returns (ok: bool, sent: Option<Submission>, askedMarket: bool, ghost at: Moment)
    requires m.Valid() && Covered(m.Books(), m.owners)
    modifies m`owners, m.traders.Values, trader
    ensures trader.id != "" ==> Covered(m.Books(), m.owners)
    ensures m.IsRegistered(trader) && old(Agree(m.Books(), m.owners)) ==> Agree(m.Books(), m.owners)
    ensures sent.Some? && IsOpening(sent.value) <==>
      TokenValid(token, trader.id, d, times.validate) &&
      OpenLeaves(old(m.owners), old(RegisteredBook(m, trader.id)), at, trader, d, replies, times.risk)
    ensures sent.Some? && sent.value.Close? <==>
      && TokenValid(token, trader.id, d, times.validate) && d.sizeUsd >= 0.0
      && IsClose(d.action) && MayClose(old(m.owners), trader.id, d.symbol)
    ensures sent.Some? && IsOpening(sent.value) ==>
      Carries(sent.value, trader, d, ExecutedLeverage(trader.params, d), replies)
    ensures sent.Some? && sent.value.Close? ==>
      sent.value.symbol == d.symbol && HeldByNoOther(old(m.Books()), trader.id, NormalizeSymbol(d.symbol))
    ensures sent.Some? && IsOpening(sent.value) && m.IsRegistered(trader) ==>
      IsSynced(old(trader.CurrentLife()), at, trader.id, replies, times.sync)
    ensures sent.Some? && IsOpening(sent.value) ==>
      if ok then Booked(at, Now(m, trader), trader.id, d, sent.value, replies) else Now(m, trader) == at
    ensures !ok ==> m.owners == at.owners && trader.positions == at.book
    ensures ok ==>
      TokenValid(token, trader.id, d, times.validate) && (sent.Some? <==> IsOpen(d.action) || IsClose(d.action))
    ensures sent.Some? ==> (ok <==> replies.order.Accepted?)
    ensures !IsOpen(d.action) && !IsClose(d.action) ==>
      (ok <==>
         && TokenValid(token, trader.id, d, times.validate)
         && (d.symbol != "" || IsNoop(d.action)) && d.sizeUsd >= 0.0)
    ensures !IsOpen(d.action) && !IsClose(d.action) ==>
      Now(m, trader) == old(Now(m, trader)) && m.Books() == old(m.Books())
    ensures askedMarket ==> IsOpen(d.action) && d.entryPrice <= 0.0
  {
    hide NormalizeSymbol, Trim, Agree, Covered, SyncSucceeds, IsSynced, Booked, SafeToOpen, OrderPrice, SymbolFree,
      Manager.Books, ExecutedLeverage, TokenValid, HeldByNoOther;
    NoSymbol(d.symbol);
    ok, sent, askedMarket, at := false, None, false, Now(m, trader);
    if !TokenValid(token, trader.id, d, times.validate) {
      return;
    }
    if (d.symbol == "" && !IsNoop(d.action)) || d.sizeUsd < 0.0 {
      return;
    }
    if IsOpen(d.action) {
      ok, sent, askedMarket, at := ExecuteOpen(m, trader, d, replies, times);
    } else if IsClose(d.action) {
      ok, sent := ExecuteClose(m, trader, d, replies);
    } else {
      ok := true;
    }
  }

  lemma NoSymbol(symbol: string)
    ensures NormalizeSymbol(symbol) != "" ==> symbol != ""
  {
  }

  /** An action execution recognises is one without surrounding white space. */
  lemma ExecutedActions(action: string)
    ensures IsOpen(action) || IsClose(action) || IsNoop(action) ==> Trim(action) == action
    ensures IsOpen(action) || IsClose(action) <==> IsTradeAction(action) && IsTrimmed(action)
  {
  }

  /** The actions by name: trades and the two that do nothing. */
  lemma ActionsAre(action: string)
    ensures IsOpen(action) || IsClose(action) <==> action in ["open_long", "open_short", "close_long", "close_short"]
    ensures IsOpen(action) <==> action in ["open_long", "open_short"]
    ensures IsNoop(action) <==> action in ["hold", "wait"]
  {
  }

  /** Approval does not see white space around the action, so a padded trade action is approved exactly
      when the bare one is; execution then treats it as no trade and reports success. */
  lemma ApprovalIgnoresPadding(p: RiskParams, id: string, modeAllowed: bool, at: Moment, d: Decision, now: Time)
    ensures Approved(p, id, modeAllowed, at, d, now) <==>
      Approved(p, id, modeAllowed, at, d.(action := Trim(d.action)), now)
    ensures IsTradeAction(d.action) <==> IsTradeAction(Trim(d.action))
    ensures IsTradeAction(" open_long") && !IsOpen(" open_long") && !IsClose(" open_long")
  {
    hide Trim, NormalizeSymbol, Whitelisted, Rejects, LeverageCap, MarginWithinCap;
    assert Trim(Trim(d.action)) == Trim(d.action);
    PaddedOpen();
  }

  lemma PaddedOpen()
    ensures Trim(" open_long") == "open_long"
  {
  }

  /** A token is valid for the decision it was issued for until it expires. */
  lemma TokenForIsValid(id: string, d: Decision, issued: Time, now: Time)
    ensures TokenValid(TokenFor(id, d, issued), id, d, now) <==> now <= issued + TOKEN_TTL
    ensures TOKEN_TTL == 30 * 1_000_000_000
  {
  }

  /** A validated configuration always yields a leverage between one and the cap. */
  lemma ApprovedLeverage(p: RiskParams, d: Decision)
    requires IsOpen(Trim(d.action)) && DecisionSound(p, d)
    ensures Validated(p) ==>
      && ExecutedLeverage(p, Completed(p, d)) == EffectiveLeverage(p, d)
      && 0 < EffectiveLeverage(p, d) <= LeverageCap(p, NormalizeSymbol(d.symbol))
  {
  }

  /** The open order of a decision: the quantity that is worth its size at its entry price, as a limit
      order at that price or as a market order, by the trader's style. */
  predicate IsOrderOf(order: Submission, trader: VirtualTrader, d: Decision) {
    && IsOpening(order) && order.symbol == d.symbol && order.isBuy == (d.action == "open_long")
    && order.quantity > 0.0 && order.quantity * d.entryPrice == d.sizeUsd
    && (order.LimitOrder? <==> trader.style == LimitIoc) && (order.LimitOrder? ==> order.price == d.entryPrice)
    && (order.MarketOrder? ==> order.slippage == SlippageOf(trader.slippageBps))
    && (Validated(trader.params) ==>
          && order.leverage == (if d.leverage > 0 then d.leverage else CoinCap(trader.params, d.symbol))
          && 0 < order.leverage <= CoinCap(trader.params, d.symbol))
  }

  /* What leaves. */

  /** The price an order goes to the exchange with, given the provider's reference price: a limit order's
      own, or the reference moved by the slippage. */
  function LimitPrice(order: Submission, reference: real): real
    requires IsOpening(order)
  {
    if order.LimitOrder? then order.price
    else if order.isBuy then reference * (1.0 + order.slippage) else reference * (1.0 - order.slippage)
  }

  /** The value of an order at that price. */
  function Worth(order: Submission, reference: real): real
    requires IsOpening(order)
  {
    order.quantity * LimitPrice(order, reference)
  }

  lemma ScaledWorth(quantity: real, entry: real, size: real, limit: real)
    requires quantity > 0.0 && entry > 0.0 && quantity * entry == size
    ensures quantity * limit * entry == size * limit
    ensures quantity * limit <= size <==> limit <= entry
  {
    assert quantity * limit * entry == quantity * entry * limit;
    ProductOrder(entry, limit, quantity);
  }

  /** The order of a decision is worth its size scaled by the ratio of limit price to entry price. So it
      is worth at most the size exactly when it is a limit order, or the reference price with its
      slippage is at most the entry price. */
  lemma WorthAtMostSizeIff(order: Submission, trader: VirtualTrader, d: Decision, reference: real)
    requires IsOrderOf(order, trader, d) && d.entryPrice > 0.0
    ensures Worth(order, reference) * d.entryPrice == d.sizeUsd * LimitPrice(order, reference)
    ensures Worth(order, reference) <= d.sizeUsd <==>
      trader.style == LimitIoc || LimitPrice(order, reference) <= d.entryPrice
    ensures trader.style == LimitIoc ==> Worth(order, reference) == d.sizeUsd
  {
    hide NormalizeSymbol, Validated, EffectiveLeverage, LeverageCap, SlippageOf;
    ScaledWorth(order.quantity, d.entryPrice, d.sizeUsd, LimitPrice(order, reference));
  }

  /** A market order goes out at the reference price moved by the trader's basis points, or by 50 where none
      are set: up for a buy, down for a sale. */
  lemma MarketWorthIs(order: Submission, trader: VirtualTrader, d: Decision, reference: real)
    requires IsOrderOf(order, trader, d) && order.MarketOrder?
    ensures var bps := if trader.slippageBps > 0.0 then trader.slippageBps else 50.0;
      && LimitPrice(order, reference) * 10000.0
         == (if order.isBuy then reference * (10000.0 + bps) else reference * (10000.0 - bps))
      && Worth(order, reference) == order.quantity * LimitPrice(order, reference)
  {
    hide NormalizeSymbol, Validated, EffectiveLeverage, LeverageCap, CoinCap, SlippageOf;
    var moved := SlippageOf(trader.slippageBps) * 10000.0;
    assert reference * (1.0 + order.slippage) * 10000.0 == reference * (10000.0 + moved);
    assert reference * (1.0 - order.slippage) * 10000.0 == reference * (10000.0 - moved);
  }

  /** A safe decision is affordable: with a validated margin cap, the margin of an order worth at most the
      decision's size is at most what the equity leaves beside the margin in use, up to the tolerance of
      the cap. */
  lemma SafeOrderIsAffordable(trader: VirtualTrader, at: Moment, d: Decision, order: Submission, reference: real,
                              now: Time)
    requires IsOrderOf(order, trader, d) && d.entryPrice > 0.0 && Validated(trader.params)
    requires SafeToOpen(trader.params, at, d, order.leverage, now)
    requires trader.params.maxMarginUsagePct > 0.0 && at.life.alloc.equity > 0.0
    requires trader.style == LimitIoc || LimitPrice(order, reference) <= d.entryPrice
    ensures var a := at.life.alloc;
      Worth(order, reference) / order.leverage as real <= a.equity - a.marginUsed + EPSILON / 100.0 * a.equity
  {
    hide NormalizeSymbol, Whitelisted, Rejects, MarginWithinCap, SlippageOf, IsOrderOf, Worth, LimitPrice, SymbolFree,
      HasCapacity, SizeWithinCap;
    OrderIsLevered(order, trader, d);
    var a, p := at.life.alloc, trader.params;
    MarginCapCoversOrder(p, a, d.sizeUsd, order.leverage);
    WorthAtMostSizeIff(order, trader, d, reference);
    CapCovers(p.maxMarginUsagePct, a.equity, a.marginUsed, d.sizeUsd / order.leverage as real);
    QuotientOrder(Worth(order, reference), d.sizeUsd, order.leverage as real);
  }

  lemma OrderIsLevered(order: Submission, trader: VirtualTrader, d: Decision)
    requires IsOrderOf(order, trader, d) && Validated(trader.params)
    ensures IsOpening(order) && order.leverage > 0
  {
    hide NormalizeSymbol, Validated, EffectiveLeverage, LeverageCap, SlippageOf;
  }

  lemma CapCovers(pct: real, equity: real, used: real, margin: real)
    requires pct <= 100.0 && equity > 0.0 && 100.0 * (used + margin) <= (pct + EPSILON) * equity
    ensures margin <= equity - used + EPSILON / 100.0 * equity
  {
    assert (100.0 - pct) * equity >= 0.0;
    assert (pct + EPSILON) * equity == pct * equity + EPSILON * equity;
  }

  /** Hence no cap on the decision's size bounds a market order: for every sound decision and every bound
      there is a reference price at which its market order is worth more. */
  lemma MarketOrderExceedsAnyBound(order: Submission, trader: VirtualTrader, d: Decision, bound: real)
    returns (reference: real)
    requires IsOrderOf(order, trader, d) && order.MarketOrder? && order.slippage < 1.0
    ensures reference > 0.0 && Worth(order, reference) > bound
  {
    hide NormalizeSymbol, Validated, EffectiveLeverage, LeverageCap, SlippageOf;
    var moved := if order.isBuy then 1.0 + order.slippage else 1.0 - order.slippage;
    assert moved > 0.0 by { SlippagePositive(trader.slippageBps); }
    var unit := order.quantity * moved;
    assert unit > 0.0 by { ProductPositive(order.quantity, moved); }
    var most := if bound > 0.0 then bound else 0.0;
    reference := (most + 1.0) / unit;
    QuantityCarriesSize(most + 1.0, unit);
    assert order.quantity * (reference * moved) == reference * unit;
  }

  /** An example: 100 dollars at an entry of 1 buy 100 coins, whatever a coin costs. At a reference price
      of 100000 the order is worth ten million, with the size cap at 100. */
  lemma MarketOrderOutgrowsItsCap(trader: VirtualTrader, d: Decision, order: Submission)
    requires trader.style == MarketIoc && trader.slippageBps == 50.0
    requires trader.params ==
      RiskParams(3, 100.0, 50.0, Limits(0.0, 0.0), 5, 5, 1.5, 50, true, true, [])
    requires d == Decision("BTC", "open_long", 1, 100.0, 1.0, 0.5, 2.0, 80)
    requires order == MarketOrder("BTC", true, 100.0, 0.005, 1)
    ensures Validated(trader.params) && DecisionSound(trader.params, d) && IsOrderOf(order, trader, d)
    ensures Worth(order, 100000.0) == 10050000.0 > trader.params.maxPositionSizeUsd + EPSILON
  {
    hide NormalizeSymbol;
    assert IsTrimmed("open_long");
  }

  lemma SlippagePositive(bps: real)
    ensures SlippageOf(bps) > 0.0
  {
  }

  /** Approval of an open implies everything about the decision itself. */
  lemma ApprovedIsSound(p: RiskParams, id: string, modeAllowed: bool, at: Moment, d: Decision, now: Time)
    requires Approved(p, id, modeAllowed, at, d, now) && IsOpen(Trim(d.action))
    ensures DecisionSound(p, d) && d.entryPrice > 0.0 && modeAllowed
    ensures !ApprovalTrips(p, modeAllowed, at, d, now)
  {
  }

  lemma CarriedOrder(order: Submission, trader: VirtualTrader, d: Decision, replies: Replies)
    requires IsOpen(d.action) && DecisionSound(trader.params, d) && d.entryPrice > 0.0
    requires var completed := Completed(trader.params, d);
      Carries(order, trader, completed, ExecutedLeverage(trader.params, completed), replies)
    ensures IsOrderOf(order, trader, d)
    ensures order.leverage == ExecutedLeverage(trader.params, Completed(trader.params, d))
  {
    hide NormalizeSymbol, Trim, IsTrimmed, IsTradeAction, WellPriced, Validated, EffectiveLeverage, ExecutedLeverage,
      LeverageCap, SlippageOf, DecisionSound;
    ExecutedActions(d.action);
    ApprovedLeverage(trader.params, d);
    SoundLeverage(trader.params, d);
    ValidatedCaps(trader.params, d.symbol);
    SamePrice(trader.params, d, replies);
  }

  lemma ValidatedCaps(p: RiskParams, symbol: string)
    ensures Validated(p) ==> CoinCap(p, symbol) > 0
  {
    hide NormalizeSymbol;
  }

  lemma SamePrice(p: RiskParams, d: Decision, replies: Replies)
    requires d.entryPrice > 0.0
    ensures OrderPrice(Completed(p, d), replies) == d.entryPrice
  {
    hide NormalizeSymbol, Trim, EffectiveLeverage;
  }

  /** Completing a decision changes none of what the account checks look at. */
  lemma SafetyIgnoresCompletion(p: RiskParams, at: Moment, d: Decision, leverage: int, now: Time)
    ensures SafeToOpen(p, at, Completed(p, d), leverage, now) <==> SafeToOpen(p, at, d, leverage, now)
  {
  }

  /** A booked order keeps the number of positions within its bound, and its symbol is the trader's. */
  lemma BookedWithinBounds(p: RiskParams, at: Moment, after: Moment, id: string, d: Decision, order: Submission,
                           replies: Replies, now: Time)
    requires IsOpening(order) && Booked(at, after, id, d, order, replies) && SafeToOpen(p, at, d, order.leverage, now)
    ensures p.maxPositions > 0 ==> |after.book| <= p.maxPositions
    ensures var key := NormalizeSymbol(d.symbol);
      key in after.book && key in after.owners && after.owners[key] == id
  {
    hide NormalizeSymbol, RiskPasses, SymbolFree, BookedFor;
    var key := NormalizeSymbol(d.symbol);
    OneMoreEntry(at.book, key, after.book[key]);
  }

  lemma BookingIgnoresCompletion(p: RiskParams, at: Moment, after: Moment, id: string, d: Decision, order: Submission,
                                 replies: Replies)
    ensures Booked(at, after, id, Completed(p, d), order, replies) <==> Booked(at, after, id, d, order, replies)
  {
    hide NormalizeSymbol, Trim, EffectiveLeverage, BookedFor;
  }

  /* The hard rules in full. */

  /** What an open must say: a size within its cap, confidence, a leverage within the cap of its coin, and
      prices with stop and target on opposite sides of the entry, the target far enough away. */
  predicate DecisionRules(p: RiskParams, d: Decision) {
    var direction, enough := if d.action == "open_long" then 1.0 else -1.0, p.minRiskReward - 0.000000001;
    && (d.action == "open_long" || d.action == "open_short") && d.sizeUsd > 0.0 && d.entryPrice > 0.0
    && (p.maxPositionSizeUsd > 0.0 ==> d.sizeUsd <= p.maxPositionSizeUsd + 0.000001)
    && (p.minConfidence > 0 ==> d.confidence >= p.minConfidence)
    && (CoinCap(p, d.symbol) > 0 ==> d.leverage <= CoinCap(p, d.symbol))
    && (p.stopLossEnabled || p.minRiskReward > 0.0 ==> d.stopLoss > 0.0)
    && (p.takeProfitEnabled || p.minRiskReward > 0.0 ==> d.takeProfit > 0.0)
    && (d.stopLoss > 0.0 ==> direction * (d.entryPrice - d.stopLoss) > 0.0)
    && (d.takeProfit > 0.0 ==> direction * (d.takeProfit - d.entryPrice) > 0.0)
    && (p.minRiskReward > 0.0 ==>
          direction * (d.takeProfit - d.entryPrice) >= enough * (direction * (d.entryPrice - d.stopLoss)))
  }

  lemma DecisionRulesIff(p: RiskParams, d: Decision)
    requires IsOpen(d.action)
    ensures DecisionSound(p, d) <==> DecisionRules(p, d)
  {
    ExecutedActions(d.action);
    hide NormalizeSymbol, Trim;
    CapByCoin(p, NormalizeSymbol(d.symbol));
  }

  /** The loss of the day is within the dollars and within the share of the start that are set. */
  predicate LossRule(limits: Limits, b: Baseline, now: Time) {
    b.updatedAt != ZERO && now != ZERO && UtcDay(b.updatedAt) == UtcDay(now) && b.start > 0.0 && b.last > 0.0 ==>
      && (limits.maxUsd > 0.0 ==> b.start - b.last <= limits.maxUsd + 0.000001)
      && (limits.maxPct > 0.0 ==> (b.start - b.last - 0.000001) * 100.0 <= b.start * limits.maxPct)
  }

  /** The margin in use together with the order's is within its share of the equity. */
  predicate MarginRule(capPct: real, a: Allocation, sizeUsd: real, leverage: int) {
    capPct > 0.0 && leverage > 0 && a.equity > 0.0 ==>
      100.0 * (a.marginUsed + sizeUsd / leverage as real) <= (capPct + 0.000001) * a.equity
  }

  /** What must hold where the order leaves: a symbol without an owner that is allowed, room for another
      position, and size, loss of the day and margin within their limits. */
  ghost predicate AccountRules(p: RiskParams, at: Moment, d: Decision, leverage: int, now: Time) {
    var key := NormalizeSymbol(d.symbol);
    && key != "" && (key in at.owners ==> at.owners[key] == "")
    && (p.allowedSymbols == [] || exists allowed :: allowed in p.allowedSymbols && NormalizeSymbol(allowed) == key)
    && (p.maxPositions > 0 ==> |at.book| < p.maxPositions)
    && (p.maxPositionSizeUsd > 0.0 ==> d.sizeUsd <= p.maxPositionSizeUsd + 0.000001)
    && LossRule(p.dailyLoss, at.life.daily, now)
    && MarginRule(p.maxMarginUsagePct, at.life.alloc, d.sizeUsd, leverage)
  }

  lemma AccountRulesIff(p: RiskParams, at: Moment, d: Decision, leverage: int, now: Time)
    ensures SafeToOpen(p, at, d, leverage, now) <==> AccountRules(p, at, d, leverage, now)
  {
    hide NormalizeSymbol, Rejects, MarginWithinCap, LossRule, MarginRule, Whitelisted;
    LossRuleIff(p.dailyLoss, at.life.daily, at.life.alloc.equity, now);
    MarginRuleIff(p, at.life.alloc, d.sizeUsd, leverage);
    AllowedIff(p.allowedSymbols, d.symbol);
  }

  lemma LossRuleIff(limits: Limits, b: Baseline, equity: real, now: Time)
    ensures LossRule(limits, b, now) <==> !Rejects(limits, b, equity, now)
  {
    hide Rejects, UtcDay, LossReason, Fixed2, ManagerLimit;
    RejectsIff(limits, b, equity, now);
  }

  lemma MarginRuleIff(p: RiskParams, alloc: Allocation, sizeUsd: real, leverage: int)
    ensures MarginRule(p.maxMarginUsagePct, alloc, sizeUsd, leverage) <==> MarginWithinCap(p, alloc, sizeUsd, leverage)
  {
    hide ProjectedMarginPct;
    if p.maxMarginUsagePct > 0.0 && leverage > 0 && alloc.equity > 0.0 {
      MarginCapCoversOrder(p, alloc, sizeUsd, leverage);
    }
  }

  lemma AllowedIff(allowed: seq<string>, symbol: string)
    ensures Whitelisted(allowed, symbol) <==>
      && NormalizeSymbol(symbol) != ""
      && (allowed == [] || exists a :: a in allowed && NormalizeSymbol(a) == NormalizeSymbol(symbol))
  {
    hide NormalizeSymbol;
  }

  /** What is approved: waiting always; a close by the owner of the symbol, or of a symbol without one; an
      open that satisfies the hard rules in the present state. Trades need the admission of the mode, nothing
      else is approved, and white space around the action does not matter. */
  lemma ApprovedIff(p: RiskParams, id: string, modeAllowed: bool, at: Moment, d: Decision, now: Time)
    ensures var action, key := Trim(d.action), NormalizeSymbol(d.symbol);
      Approved(p, id, modeAllowed, at, d, now) <==>
        || (action in ["hold", "wait"] && d.sizeUsd >= 0.0)
        || (action in ["close_long", "close_short"] && d.sizeUsd >= 0.0 && modeAllowed
            && key != "" && (key in at.owners ==> at.owners[key] in ["", id]))
        || (modeAllowed && DecisionRules(p, d.(action := action))
            && AccountRules(p, at, d, if d.leverage > 0 then d.leverage else CoinCap(p, d.symbol), now))
  {
    hide Trim, NormalizeSymbol, DecisionRules, AccountRules, DecisionSound, RiskPasses, CoinCap, EffectiveLeverage;
    var bare := d.(action := Trim(d.action));
    ActionsAre(bare.action);
    RulesNeedAnOpen(p, bare);
    if IsOpen(bare.action) {
      DecisionRulesIff(p, bare);
      SoundnessIgnoresPadding(p, d);
      LeverageIs(p, d);
      AccountRulesIff(p, at, d, EffectiveLeverage(p, d), now);
      RulesNeedASize(p, bare);
    }
  }

  lemma RulesNeedAnOpen(p: RiskParams, d: Decision)
    ensures DecisionRules(p, d) ==> IsOpen(d.action)
  {
    hide NormalizeSymbol;
  }

  lemma RulesNeedASize(p: RiskParams, d: Decision)
    ensures DecisionRules(p, d) ==> d.sizeUsd > 0.0
  {
    hide NormalizeSymbol;
  }

  lemma SoundnessIgnoresPadding(p: RiskParams, d: Decision)
    ensures DecisionSound(p, d.(action := Trim(d.action))) <==> DecisionSound(p, d)
  {
    hide Trim, NormalizeSymbol;
    assert Trim(Trim(d.action)) == Trim(d.action);
  }

  lemma LeverageIs(p: RiskParams, d: Decision)
    ensures EffectiveLeverage(p, d) == if d.leverage > 0 then d.leverage else CoinCap(p, d.symbol)
  {
    hide NormalizeSymbol;
    CapByCoin(p, NormalizeSymbol(d.symbol));
  }

  /** Approves and executes. An open order leaves only when the decision is sound and every account
      check holds of the state after the pre-submit sync; the market is never asked for a price. */
  method ExecuteDecision(m: Manager, trader: VirtualTrader, d: Decision, replies: Replies, times: Times)
    returns (ok: bool, sent: Option<Submission>, askedMarket: bool, ghost at: Moment)
    requires m.Valid() && Covered(m.Books(), m.owners)
    modifies m`owners, m.traders.Values, trader
    ensures trader.id != "" ==> Covered(m.Books(), m.owners)
    ensures m.IsRegistered(trader) && old(Agree(m.Books(), m.owners)) ==> Agree(m.Books(), m.owners)
    ensures !askedMarket
    ensures ok && sent.Some? && IsOpening(sent.value) && trader.params.maxPositions > 0 ==>
      |trader.positions| <= trader.params.maxPositions
    ensures ok && sent.Some? && IsOpening(sent.value) && trader.id != "" ==>
      NormalizeSymbol(d.symbol) in trader.positions && HeldByNoOther(m.Books(), trader.id, NormalizeSymbol(d.symbol))
    ensures sent.Some? && IsOpening(sent.value) ==>
      && SafeToOpen(trader.params, at, d, sent.value.leverage, times.risk)
      && DecisionSound(trader.params, d) && trader.modeAllowed && IsOpen(d.action)
      && IsOrderOf(sent.value, trader, d)
    ensures sent.Some? && IsOpening(sent.value) ==>
      DecisionRules(trader.params, d) && AccountRules(trader.params, at, d, sent.value.leverage, times.risk)
    ensures sent.Some? && IsOpening(sent.value) && m.IsRegistered(trader) ==>
      IsSynced(old(trader.CurrentLife()), at, trader.id, replies, times.sync)
    ensures sent.Some? && IsOpening(sent.value) ==>
      if ok then Booked(at, Now(m, trader), trader.id, d, sent.value, replies) else Now(m, trader) == at
    ensures !ok ==> m.owners == at.owners && trader.positions == at.book
    ensures sent.Some? && IsOpening(sent.value) <==>
      && Approved(trader.params, trader.id, trader.modeAllowed, old(Now(m, trader)), d, times.approve)
      && times.validate <= times.approve + TOKEN_TTL
      && OpenLeaves(old(m.owners), old(RegisteredBook(m, trader.id)), at, trader, Completed(trader.params, d),
                    replies, times.risk)
    ensures sent.Some? && sent.value.Close? <==>
      && Approved(trader.params, trader.id, trader.modeAllowed, old(Now(m, trader)), d, times.approve)
      && times.validate <= times.approve + TOKEN_TTL && IsClose(d.action)
    ensures sent.Some? && sent.value.Close? ==>
      sent.value.symbol == d.symbol && HeldByNoOther(old(m.Books()), trader.id, NormalizeSymbol(d.symbol))
    ensures ok ==> (sent.Some? <==> IsTradeAction(d.action) && IsTrimmed(d.action))
    ensures sent.Some? ==> (ok <==> replies.order.Accepted?)
    ensures IsTradeAction(d.action) && !IsTrimmed(d.action) ==>
      && sent.None? && m.owners == old(m.owners) && m.Books() == old(m.Books())
      && (ok <==>
            && Approved(trader.params, trader.id, trader.modeAllowed, old(Now(m, trader)), d, times.approve)
            && times.validate <= times.approve + TOKEN_TTL)
  {
    hide NormalizeSymbol, Trim, Agree, Covered, SyncSucceeds, IsSynced, Booked, SafeToOpen, SymbolFree, Manager.Books,
      ExecutedLeverage, TokenValid, TokenFor, DecisionSound, EffectiveLeverage, Placeable, Carries, IsOrderOf,
      MayClose, TrippedByLoss, ApprovalTrips, OpenApproved, IsTrimmed, HeldByNoOther, DecisionRules, AccountRules;
    ExecutedActions(d.action);
    ok, sent, askedMarket, at := false, None, false, Now(m, trader);
    NoSymbol(d.symbol);
    ghost var before := Now(m, trader);
    var token, completed := Approve(m, trader, d, times.approve);
    if token.Some? {
      if IsOpen(Trim(d.action)) {
        ApprovedIsSound(trader.params, trader.id, trader.modeAllowed, before, d, times.approve);
      }
      TokenForIsValid(trader.id, completed, times.approve, times.validate);
      ok, sent, askedMarket, at := Execute(m, trader, completed, token.value, replies, times);
      if sent.Some? && IsOpening(sent.value) {
        CarriedOrder(sent.value, trader, d, replies);
        SafetyIgnoresCompletion(trader.params, at, d, sent.value.leverage, times.risk);
        DecisionRulesIff(trader.params, d);
        AccountRulesIff(trader.params, at, d, sent.value.leverage, times.risk);
        BookingIgnoresCompletion(trader.params, at, Now(m, trader), trader.id, d, sent.value, replies);
        if ok {
          BookedWithinBounds(trader.params, at, Now(m, trader), trader.id, d, sent.value, replies, times.risk);
          if trader.id != "" {
            OwnerHoldsAlone(m.Books(), m.owners, trader.id, NormalizeSymbol(d.symbol));
          }
        }
      }
    }
  }
}
