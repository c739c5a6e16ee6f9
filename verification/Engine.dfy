/**
 The backtest engine: a feed of prices drives a strategy, its orders fill at a slipped price
 and are booked in the portfolio, and the run is summarised in a result.
 */
module Engine {
  import opened Options
  import opened Portfolio
  import opened Reals
  import Drawdown

  /** `accepted` is the reply of the exchange to `PlaceOrder`. */
  datatype Order = Order(isBuy: bool, size: real, accepted: bool)

  /** One turn of the feed: it can fail, the strategy can fail on it, or orders come back. */
  datatype Tick = FeedError | DecideError | Tick(px: real, orders: seq<Order>)

  datatype Config = Config(configured: bool, initialEquity: real, feeBps: real, slippageBps: real)

  datatype TradeDetail = TradeDetail(step: nat, isBuy: bool, price: real, qty: real, fee: real, realized: real,
                                     position: real)

  datatype Result = Result(
    steps: nat, ordersSent: nat, trades: nat, wins: nat, winRate: real,
    realizedPnl: real, unrealPnl: real, totalPnl: real, maxDrawdownPct: real,
    equityCurve: seq<real>, details: seq<TradeDetail>)

  /** Slippage moves a buy up and a sell down. At -10000 basis points a sell has no price, since that
      is a division by zero, and a buy costs nothing. */
  function Slipped(px: real, bps: real, isBuy: bool): real
    requires bps != -10000.0 || isBuy
  {
    if bps == 0.0 then px
    else if isBuy then px * (1.0 + bps / 10000.0)
    else px / (1.0 + bps / 10000.0)
  }

  function OpeningEquity(cfg: Config): real {
    if cfg.initialEquity <= 0.0 then 100000.0 else cfg.initialEquity
  }

  /** Every turn of the feed yields orders and the exchange accepts all of them. */
  predicate Completes(ticks: seq<Tick>) {
    forall k :: 0 <= k < |ticks| ==> ticks[k].Tick? && AllAccepted(ticks[k].orders)
  }

  predicate AllAccepted(orders: seq<Order>) {
    forall i :: 0 <= i < |orders| ==> orders[i].accepted
  }

  /** No order is a sale at a slippage at which sales have no price. */
  predicate Priced(bps: real, orders: seq<Order>) {
    bps == -10000.0 ==> forall i :: 0 <= i < |orders| ==> orders[i].isBuy
  }

  predicate AllPriced(bps: real, ticks: seq<Tick>) {
    forall k :: 0 <= k < |ticks| && ticks[k].Tick? ==> Priced(bps, ticks[k].orders)
  }

  /** An order as it left the engine: the turn it belongs to and its fill at the slipped price. */
  datatype Sent = Sent(step: nat, fill: Fill)

  function SentAt(bps: real, step: nat, px: real, orders: seq<Order>): seq<Sent>
    requires Priced(bps, orders)
  {
    if orders == [] then []
    else
      var o := orders[|orders| - 1];
      SentAt(bps, step, px, orders[..|orders| - 1]) + [Sent(step, Fill(o.isBuy, Slipped(px, bps, o.isBuy), o.size))]
  }

  /** Everything a feed sends, in order; turns are numbered from one. */
  function SentBy(bps: real, ticks: seq<Tick>): seq<Sent>
    requires AllPriced(bps, ticks)
  {
    if ticks == [] then []
    else
      var last := ticks[|ticks| - 1];
      SentBy(bps, ticks[..|ticks| - 1]) + if last.Tick? then SentAt(bps, |ticks|, last.px, last.orders) else []
  }

  function Fills(sent: seq<Sent>): seq<Fill> {
    if sent == [] then [] else Fills(sent[..|sent| - 1]) + [sent[|sent| - 1].fill]
  }

  /** The running totals of a run: the account, one row per order and the two counters. */
  datatype Tally = Tally(account: Account, details: seq<TradeDetail>, trades: nat, wins: nat)

  function Tallied(t: Tally, feeBps: real, s: Sent): Tally {
    var f := s.fill;
    var pnl, account := RealizedBy(t.account, f), Applied(t.account, feeBps, f);
    var closes := Booked(f) && Opposes(t.account.pos, Signed(f));
    Tally(account,
          t.details + [TradeDetail(s.step, f.isBuy, f.px, f.qty, FeeOf(feeBps, f), pnl, account.pos)],
          t.trades + (if closes then 1 else 0),
          t.wins + (if closes && pnl > 0.0 then 1 else 0))
  }

  function TalliedAll(cash: real, feeBps: real, sent: seq<Sent>): Tally {
    if sent == [] then Tally(Opening(cash), [], 0, 0)
    else Tallied(TalliedAll(cash, feeBps, sent[..|sent| - 1]), feeBps, sent[|sent| - 1])
  }

  function SumFees(details: seq<TradeDetail>): real {
    if details == [] then 0.0 else SumFees(details[..|details| - 1]) + details[|details| - 1].fee
  }

  function SumRealized(details: seq<TradeDetail>): real {
    if details == [] then 0.0 else SumRealized(details[..|details| - 1]) + details[|details| - 1].realized
  }

  /** How many orders realised a profit. */
  function WinningRows(details: seq<TradeDetail>): nat {
    if details == [] then 0
    else WinningRows(details[..|details| - 1]) + if details[|details| - 1].realized > 0.0 then 1 else 0
  }

  /** How many fills closed some of an open position. */
  function ClosingFills(fills: seq<Fill>): nat {
    if fills == [] then 0
    else
      var prefix, f := fills[..|fills| - 1], fills[|fills| - 1];
      ClosingFills(prefix) + if Booked(f) && Opposes(NetPosition(prefix), Signed(f)) then 1 else 0
  }

  /** Row `i` shows order `i`, its fee, and the net of the orders up to it. */
  predicate RowsMatch(details: seq<TradeDetail>, feeBps: real, sent: seq<Sent>) {
    && |details| == |sent|
    && forall i :: 0 <= i < |details| ==>
         && (details[i].step, details[i].isBuy, details[i].price, details[i].qty)
            == (sent[i].step, sent[i].fill.isBuy, sent[i].fill.px, sent[i].fill.qty)
         && details[i].fee == FeeOf(feeBps, sent[i].fill)
         && details[i].position == NetPosition(Fills(sent[..i + 1]))
  }

  /** The totals agree with the ledger of what was sent. */
  predicate Reconciled(t: Tally, cash: real, feeBps: real, sent: seq<Sent>) {
    && t.account == AppliedAll(Opening(cash), feeBps, Fills(sent))
    && RowsMatch(t.details, feeBps, sent)
    && SumFees(t.details) == TotalFees(feeBps, Fills(sent))
    && SumRealized(t.details) == t.account.realized
    && t.trades == ClosingFills(Fills(sent)) <= |sent|
    && t.wins == WinningRows(t.details) <= t.trades
  }

  lemma FillsExtend(sent: seq<Sent>, s: Sent)
    ensures Fills(sent + [s]) == Fills(sent) + [s.fill]
    ensures |Fills(sent)| == |sent|
  {
  }

  lemma NoCloseNoProfit(a: Account, f: Fill)
    requires !(Booked(f) && Opposes(a.pos, Signed(f)))
    ensures RealizedBy(a, f) == 0.0
  {
  }

  lemma AccountOneMore(cash: real, feeBps: real, sent: seq<Sent>, s: Sent)
    ensures var a := AppliedAll(Opening(cash), feeBps, Fills(sent));
      && AppliedAll(Opening(cash), feeBps, Fills(sent + [s])) == Applied(a, feeBps, s.fill)
      && a.pos == NetPosition(Fills(sent))
      && Applied(a, feeBps, s.fill).pos == NetPosition(Fills(sent + [s]))
  {
  }

  lemma RowsOneMore(details: seq<TradeDetail>, row: TradeDetail, feeBps: real, sent: seq<Sent>, s: Sent)
    requires RowsMatch(details, feeBps, sent)
    requires (row.step, row.isBuy, row.price, row.qty) == (s.step, s.fill.isBuy, s.fill.px, s.fill.qty)
    requires row.fee == FeeOf(feeBps, s.fill) && row.position == NetPosition(Fills(sent + [s]))
    ensures RowsMatch(details + [row], feeBps, sent + [s])
  {
    hide FeeOf, NetPosition, Fills;
    var all := sent + [s];
    assert all[..|all|] == all;
    forall i | 0 <= i < |sent|
      ensures details[i].position == NetPosition(Fills(all[..i + 1]))
    {
      assert all[..i + 1] == sent[..i + 1];
    }
  }

  lemma RowTotalsOneMore(details: seq<TradeDetail>, row: TradeDetail)
    ensures SumFees(details + [row]) == SumFees(details) + row.fee
    ensures SumRealized(details + [row]) == SumRealized(details) + row.realized
    ensures WinningRows(details + [row]) == WinningRows(details) + if row.realized > 0.0 then 1 else 0
  {
  }

  lemma FillTotalsOneMore(feeBps: real, fills: seq<Fill>, f: Fill)
    ensures TotalFees(feeBps, fills + [f]) == TotalFees(feeBps, fills) + FeeOf(feeBps, f)
    ensures ClosingFills(fills + [f])
            == ClosingFills(fills) + if Booked(f) && Opposes(NetPosition(fills), Signed(f)) then 1 else 0
  {
  }

  /** One more order keeps every total in step with the ledger. */
  lemma ReconciledOneMore(t: Tally, cash: real, feeBps: real, sent: seq<Sent>, s: Sent)
    requires Reconciled(t, cash, feeBps, sent)
    ensures Reconciled(Tallied(t, feeBps, s), cash, feeBps, sent + [s])
  {
    hide RealizedBy, FeeOf, AverageCostAfter, NetPosition, RowsMatch, AppliedAll, Fills, TotalFees, ClosingFills,
      SumFees, SumRealized, WinningRows;
    var t' := Tallied(t, feeBps, s);
    var row := t'.details[|t.details|];
    FillsExtend(sent, s);
    FillTotalsOneMore(feeBps, Fills(sent), s.fill);
    RowTotalsOneMore(t.details, row);
    AccountOneMore(cash, feeBps, sent, s);
    RowsOneMore(t.details, row, feeBps, sent, s);
    if !(Booked(s.fill) && Opposes(t.account.pos, Signed(s.fill))) {
      NoCloseNoProfit(t.account, s.fill);
    }
  }

  /** The totals of any sequence of orders agree with its ledger. */
  lemma {:induction false} TallyIsReconciled(cash: real, feeBps: real, sent: seq<Sent>)
    ensures Reconciled(TalliedAll(cash, feeBps, sent), cash, feeBps, sent)
  {
    hide Tallied, Reconciled;
    if sent == [] {
      NothingSent(cash, feeBps);
    } else {
      var prefix, s := sent[..|sent| - 1], sent[|sent| - 1];
      TallyIsReconciled(cash, feeBps, prefix);
      ReconciledOneMore(TalliedAll(cash, feeBps, prefix), cash, feeBps, prefix, s);
      assert prefix + [s] == sent;
    }
  }

  lemma NothingSent(cash: real, feeBps: real)
    ensures Reconciled(TalliedAll(cash, feeBps, []), cash, feeBps, [])
  {
  }

  /** An execution price against the price of its turn: a buy pays the slippage on top, and a sale
      receives what with the slippage on top would be the price. */
  predicate IsSlipped(execPx: real, px: real, bps: real, isBuy: bool) {
    if isBuy then execPx * 10000.0 == px * (10000.0 + bps) else execPx * (10000.0 + bps) == px * 10000.0
  }

  lemma SlippedIs(px: real, bps: real, isBuy: bool)
    requires bps != -10000.0 || isBuy
    ensures IsSlipped(Slipped(px, bps, isBuy), px, bps, isBuy)
    ensures bps > 0.0 && px > 0.0 ==> if isBuy then Slipped(px, bps, isBuy) > px else Slipped(px, bps, isBuy) < px
  {
    if bps != 0.0 {
      var m := 1.0 + bps / 10000.0;
      QuotientTimes(bps, 10000.0);
      assert m * 10000.0 == 10000.0 + bps;
      if isBuy {
        assert px * m * 10000.0 == px * (m * 10000.0);
        if bps > 0.0 && px > 0.0 {
          ProductOrder(m, 1.0, px);
        }
      } else {
        QuotientTimes(px, m);
        assert px / m * (m * 10000.0) == px / m * m * 10000.0;
        if bps > 0.0 && px > 0.0 {
          ProductOrder(px / m, 0.0, m);
          ProductOrder(m, 1.0, px / m);
        }
      }
    }
  }

  /** Every row belongs to a turn, and its price is the turn's price with the slippage. */
  predicate RowsPriced(details: seq<TradeDetail>, bps: real, ticks: seq<Tick>) {
    forall i :: 0 <= i < |details| ==>
      && 1 <= details[i].step <= |ticks| && ticks[details[i].step - 1].Tick?
      && IsSlipped(details[i].price, ticks[details[i].step - 1].px, bps, details[i].isBuy)
  }

  /** What was sent belongs to a turn, at its price with the slippage. */
  predicate SentPriced(sent: seq<Sent>, bps: real, ticks: seq<Tick>) {
    forall i :: 0 <= i < |sent| ==>
      && 1 <= sent[i].step <= |ticks| && ticks[sent[i].step - 1].Tick?
      && IsSlipped(sent[i].fill.px, ticks[sent[i].step - 1].px, bps, sent[i].fill.isBuy)
  }

  lemma {:induction false} SentAtPriced(bps: real, step: nat, px: real, orders: seq<Order>)
    requires Priced(bps, orders)
    ensures forall i :: 0 <= i < |SentAt(bps, step, px, orders)| ==>
      var s := SentAt(bps, step, px, orders)[i]; s.step == step && IsSlipped(s.fill.px, px, bps, s.fill.isBuy)
  {
    hide Slipped, IsSlipped;
    if orders != [] {
      SentAtPriced(bps, step, px, orders[..|orders| - 1]);
      SlippedIs(px, bps, orders[|orders| - 1].isBuy);
    }
  }

  lemma {:induction false} SentByPriced(bps: real, ticks: seq<Tick>)
    requires AllPriced(bps, ticks)
    ensures SentPriced(SentBy(bps, ticks), bps, ticks)
  {
    hide SentAt, IsSlipped;
    if ticks != [] {
      var prefix, last := ticks[..|ticks| - 1], ticks[|ticks| - 1];
      SentByPriced(bps, prefix);
      if last.Tick? {
        SentAtPriced(bps, |ticks|, last.px, last.orders);
      }
    }
  }

  lemma RowsArePriced(details: seq<TradeDetail>, feeBps: real, sent: seq<Sent>, bps: real, ticks: seq<Tick>)
    requires RowsMatch(details, feeBps, sent) && SentPriced(sent, bps, ticks)
    ensures RowsPriced(details, bps, ticks) && |details| == |sent|
  {
    hide IsSlipped, FeeOf, NetPosition, Fills;
  }

  /** What a completed run reports, against the ledger of the orders it sent: the rows, the equity
      at every turn, the counters, and the value it conserves. */
  predicate Faithful(cfg: Config, ticks: seq<Tick>, r: Result)
    requires AllPriced(cfg.slippageBps, ticks)
  {
    var cash := if cfg.initialEquity > 0.0 then cfg.initialEquity else 100000.0;
    var sent := SentBy(cfg.slippageBps, ticks);
    && r.steps == |ticks| == |r.equityCurve|
    && RowsMatch(r.details, cfg.feeBps, sent) && RowsPriced(r.details, cfg.slippageBps, ticks)
    && SumFees(r.details) * 10000.0 == cfg.feeBps * Turnover(Fills(sent))
    && CurveMatches(r.equityCurve, cash, cfg, ticks)
    && r.ordersSent == |sent| && r.trades == ClosingFills(Fills(sent)) && r.wins == WinningRows(r.details)
    && r.wins <= r.trades <= r.ordersSent
    && r.winRate == WinRate(r.wins, r.trades)
    && Drawdown.IsMaxPeakLoss([cash] + r.equityCurve, r.maxDrawdownPct)
    && r.realizedPnl == SumRealized(r.details)
    && r.totalPnl == r.realizedPnl + r.unrealPnl
    && (ticks == [] ==> r.totalPnl == 0.0)
    && (ticks != [] ==> r.equityCurve[|ticks| - 1] == cash + r.totalPnl - SumFees(r.details))
  }

  /** Equity marked on the ledger of the orders sent so far. */
  function LedgerEquity(cash: real, feeBps: real, sent: seq<Sent>, mark: real): real {
    cash + MarkToMarket(Fills(sent), mark) - TotalFees(feeBps, Fills(sent))
  }

  /** Every point of the curve is the ledger's equity at that turn's price. */
  predicate CurveMatches(curve: seq<real>, cash: real, cfg: Config, ticks: seq<Tick>)
    requires AllPriced(cfg.slippageBps, ticks)
  {
    && |curve| <= |ticks|
    && forall k :: 0 <= k < |curve| ==>
         && ticks[k].Tick?
         && curve[k] == LedgerEquity(cash, cfg.feeBps, SentBy(cfg.slippageBps, ticks[..k + 1]), ticks[k].px)
  }

  /** The share of closing orders that made a profit. */
  function WinRate(wins: nat, trades: nat): (rate: real)
    ensures trades > 0 ==> rate * trades as real == wins as real
    ensures trades == 0 ==> rate == 0.0
    ensures wins <= trades ==> 0.0 <= rate <= 1.0
  {
    if trades == 0 then 0.0 else wins as real / trades as real
  }

  /** Sends the orders of one turn, in order, and stops at the first one the exchange refuses. */
  method SendAll(book: Book, ghost cash: real, ghost before: seq<Sent>, step: nat, px: real, bps: real,
                 orders: seq<Order>, details0: seq<TradeDetail>, trades0: nat, wins0: nat)
    returns (ok: bool, details: seq<TradeDetail>, trades: nat, wins: nat)
    requires Priced(bps, orders)
    requires Tally(book.View(), details0, trades0, wins0) == TalliedAll(cash, book.feeBps, before)
    modifies book`cash, book`pos, book`avgCost, book`realized
    ensures ok <==> AllAccepted(orders)
    ensures ok ==> Tally(book.View(), details, trades, wins)
                   == TalliedAll(cash, book.feeBps, before + SentAt(bps, step, px, orders))
  {
    hide Slipped, RealizedBy, Applied, FeeOf, TalliedAll, SentAt, AllAccepted, Priced;
    details, trades, wins := details0, trades0, wins0;
    ghost var sent := before;
    NoneSent(bps, step, px, orders, before);
    for i := 0 to |orders|
      invariant AllAccepted(orders[..i]) && Priced(bps, orders[..i])
      invariant sent == before + SentAt(bps, step, px, orders[..i])
      invariant Tally(book.View(), details, trades, wins) == TalliedAll(cash, book.feeBps, sent)
    {
      SentOneMore(bps, step, px, orders, i, before);
      var execPx := Slipped(px, bps, orders[i].isBuy);
      var pnl, fee, tradeCompleted := book.Apply(orders[i].isBuy, execPx, orders[i].size);
      if tradeCompleted {
        trades := trades + 1;
        if pnl > 0.0 {
          wins := wins + 1;
        }
      }
      if !orders[i].accepted {
        return false, details, trades, wins;
      }
      details := details + [TradeDetail(step, orders[i].isBuy, execPx, orders[i].size, fee, pnl, book.pos)];
      ghost var s := Sent(step, Fill(orders[i].isBuy, execPx, orders[i].size));
      TalliedOneMore(cash, book.feeBps, sent, s);
      sent := sent + [s];
    }
    assert orders[..|orders|] == orders;
    ok := true;
  }

  lemma NoneSent(bps: real, step: nat, px: real, orders: seq<Order>, before: seq<Sent>)
    ensures AllAccepted(orders[..0]) && Priced(bps, orders[..0])
    ensures before + SentAt(bps, step, px, orders[..0]) == before
  {
  }

  lemma SentOneMore(bps: real, step: nat, px: real, orders: seq<Order>, i: nat, before: seq<Sent>)
    requires Priced(bps, orders) && i < |orders|
    ensures bps != -10000.0 || orders[i].isBuy
    ensures Priced(bps, orders[..i]) && Priced(bps, orders[..i + 1])
    ensures AllAccepted(orders[..i + 1]) <==> AllAccepted(orders[..i]) && orders[i].accepted
    ensures AllAccepted(orders) ==> orders[i].accepted
    ensures var o := orders[i];
      before + SentAt(bps, step, px, orders[..i + 1])
      == before + SentAt(bps, step, px, orders[..i]) + [Sent(step, Fill(o.isBuy, Slipped(px, bps, o.isBuy), o.size))]
  {
    hide Slipped;
    assert orders[..i + 1][..i] == orders[..i];
  }

  lemma TalliedOneMore(cash: real, feeBps: real, sent: seq<Sent>, s: Sent)
    ensures TalliedAll(cash, feeBps, sent + [s]) == Tallied(TalliedAll(cash, feeBps, sent), feeBps, s)
  {
    hide Tallied;
    assert (sent + [s])[..|sent|] == sent;
  }

  /** Values the book at `px`, which is what its ledger is worth there. */
  method Mark(book: Book, ghost cash: real, ghost sent: seq<Sent>, px: real) returns (equity: real)
    requires book.View() == TalliedAll(cash, book.feeBps, sent).account
    modifies book`unrealized
    ensures equity == LedgerEquity(cash, book.feeBps, sent, px) == book.cash + book.unrealized
  {
    hide Tallied, TalliedAll, AppliedAll;
    TallyIsReconciled(cash, book.feeBps, sent);
    AverageCostEqualsLedger(cash, book.feeBps, Fills(sent), px);
    equity := book.Equity(px);
  }

  lemma NothingFed(cash: real, cfg: Config, ticks: seq<Tick>)
    requires AllPriced(cfg.slippageBps, ticks)
    ensures Completes(ticks[..0]) && SentBy(cfg.slippageBps, ticks[..0]) == []
    ensures Tally(Opening(cash), [], 0, 0) == TalliedAll(cash, cfg.feeBps, [])
    ensures CurveMatches([], cash, cfg, ticks)
  {
  }

  lemma SentByExtend(bps: real, ticks: seq<Tick>, k: nat)
    requires AllPriced(bps, ticks) && k < |ticks| && ticks[k].Tick?
    ensures SentBy(bps, ticks[..k + 1]) == SentBy(bps, ticks[..k]) + SentAt(bps, k + 1, ticks[k].px, ticks[k].orders)
  {
    hide SentAt;
    assert ticks[..k + 1][..k] == ticks[..k];
  }

  lemma OneTurnMore(curve: seq<real>, equity: real, cash: real, cfg: Config, ticks: seq<Tick>)
    requires AllPriced(cfg.slippageBps, ticks) && |curve| < |ticks| && ticks[|curve|].Tick?
    requires CurveMatches(curve, cash, cfg, ticks) && Completes(ticks[..|curve|]) && AllAccepted(ticks[|curve|].orders)
    requires equity == LedgerEquity(cash, cfg.feeBps, SentBy(cfg.slippageBps, ticks[..|curve| + 1]), ticks[|curve|].px)
    ensures CurveMatches(curve + [equity], cash, cfg, ticks) && Completes(ticks[..|curve| + 1])
  {
    hide LedgerEquity, SentBy, AllAccepted;
  }

  lemma FailsAt(ticks: seq<Tick>, k: nat)
    requires k < |ticks|
    ensures Completes(ticks) ==> ticks[k].Tick? && AllAccepted(ticks[k].orders)
  {
  }

  /** One turn of the feed: the strategy's orders are sent and the book is marked. */
  method Turn(book: Book, ghost cash: real, ghost before: seq<Sent>, step: nat, bps: real, tick: Tick,
              details0: seq<TradeDetail>, trades0: nat, wins0: nat)
    returns (ok: bool, equity: real, details: seq<TradeDetail>, trades: nat, wins: nat)
    requires tick.Tick? ==> Priced(bps, tick.orders)
    requires Tally(book.View(), details0, trades0, wins0) == TalliedAll(cash, book.feeBps, before)
    modifies book
    ensures ok <==> tick.Tick? && AllAccepted(tick.orders)
    ensures ok ==> var sent := before + SentAt(bps, step, tick.px, tick.orders);
      && Tally(book.View(), details, trades, wins) == TalliedAll(cash, book.feeBps, sent)
      && equity == LedgerEquity(cash, book.feeBps, sent, tick.px) == book.cash + book.unrealized
  {
    hide TalliedAll, SentAt, LedgerEquity, AllAccepted;
    if !tick.Tick? {
      return false, 0.0, details0, trades0, wins0;
    }
    ok, details, trades, wins := SendAll(book, cash, before, step, tick.px, bps, tick.orders, details0, trades0, wins0);
    if !ok {
      return false, 0.0, details, trades, wins;
    }
    equity := Mark(book, cash, before + SentAt(bps, step, tick.px, tick.orders), tick.px);
  }

  /** Runs the whole feed against the book, unless some turn of it fails. */
  method Feed(book: Book, ghost cash: real, cfg: Config, ticks: seq<Tick>)
    returns (ok: bool, curve: seq<real>, details: seq<TradeDetail>, trades: nat, wins: nat)
    requires AllPriced(cfg.slippageBps, ticks) && book.feeBps == cfg.feeBps
    requires book.View() == Opening(cash) && book.unrealized == 0.0
    modifies book
    ensures ok <==> Completes(ticks)
    ensures ok ==> Tally(book.View(), details, trades, wins)
                   == TalliedAll(cash, cfg.feeBps, SentBy(cfg.slippageBps, ticks))
    ensures ok ==> |curve| == |ticks| && CurveMatches(curve, cash, cfg, ticks)
    ensures ok ==> if ticks == [] then book.realized + book.unrealized == 0.0
                   else curve[|curve| - 1] == book.cash + book.unrealized
  {
    hide TalliedAll, CurveMatches, SentBy, SentAt, LedgerEquity, Completes, AllAccepted;
    NothingFed(cash, cfg, ticks);
    curve, details, trades, wins := [], [], 0, 0;
    for k := 0 to |ticks|
      invariant Completes(ticks[..k])
      invariant Tally(book.View(), details, trades, wins)
                == TalliedAll(cash, cfg.feeBps, SentBy(cfg.slippageBps, ticks[..k]))
      invariant |curve| == k && CurveMatches(curve, cash, cfg, ticks)
      invariant if k == 0 then book.realized + book.unrealized == 0.0
                else curve[k - 1] == book.cash + book.unrealized
    {
      FailsAt(ticks, k);
      var equity;
      ok, equity, details, trades, wins :=
        Turn(book, cash, SentBy(cfg.slippageBps, ticks[..k]), k + 1, cfg.slippageBps, ticks[k], details, trades, wins);
      if !ok {
        return false, curve, details, trades, wins;
      }
      SentByExtend(cfg.slippageBps, ticks, k);
      OneTurnMore(curve, equity, cash, cfg, ticks);
      curve := curve + [equity];
    }
    assert ticks[..|ticks|] == ticks;
    ok := true;
  }

  /** A run either meets a failure of the feed, the strategy or the exchange and reports nothing,
      or completes and reports exactly what the ledger of its orders says. */
  method Run(cfg: Config, ticks: seq<Tick>) returns (res: Option<Result>)
    requires AllPriced(cfg.slippageBps, ticks)
    ensures res.Some? <==> cfg.configured && Completes(ticks)
    ensures res.Some? ==> Faithful(cfg, ticks, res.value)
  {
    hide Tallied, TalliedAll, CurveMatches, AppliedAll, WinRate, Drawdown.IsMaxPeakLoss, Drawdown.IsMaxFall,
      Drawdown.LowDepth, Drawdown.PeakDepth, Drawdown.NonNegative, SentBy, Fills, Completes,
      RowsMatch, RowsPriced, SentPriced, Turnover, TotalFees;
    if !cfg.configured {
      return None;
    }
    var cash := OpeningEquity(cfg);
    var book := new Book(cash, cfg.feeBps);
    var ok, curve, details, trades, wins := Feed(book, cash, cfg, ticks);
    if !ok {
      return None;
    }
    ghost var sent := SentBy(cfg.slippageBps, ticks);
    TallyIsReconciled(cash, cfg.feeBps, sent);
    AccountMatchesLedger(cash, cfg.feeBps, Fills(sent));
    TotalFeesAreOfTurnover(cfg.feeBps, Fills(sent));
    SentByPriced(cfg.slippageBps, ticks);
    RowsArePriced(details, cfg.feeBps, sent, cfg.slippageBps, ticks);
    var maxDrawdownPct := Drawdown.MaxDrawdownPct([cash] + curve);
    res := Some(Result(|curve|, |details|, trades, wins, WinRate(wins, trades), book.realized, book.unrealized,
                       book.realized + book.unrealized, maxDrawdownPct, curve, details));
  }
}
