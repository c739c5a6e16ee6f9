/**
 The backtest portfolio: average-cost accounting over a stream of fills, and the full
 fill ledger that it compresses. Prices, quantities and cash are reals.
 */
module Portfolio {
  import opened Reals

  datatype Fill = Fill(isBuy: bool, px: real, qty: real)

  /** A fill is booked only when its quantity and its price are positive. */
  predicate Booked(f: Fill) {
    f.qty > 0.0 && f.px > 0.0
  }

  function Signed(f: Fill): real {
    if f.isBuy then f.qty else -f.qty
  }

  function Abs(x: real): real {
    if x < 0.0 then -x else x
  }

  function Fee(feeBps: real, px: real, qty: real): real {
    if feeBps == 0.0 then 0.0 else px * qty * (feeBps / 10000.0)
  }

  /** Quote currency that a fill moves: a buy costs, a sell earns. */
  function CostOf(f: Fill): real {
    if Booked(f) then Signed(f) * f.px else 0.0
  }

  function FeeOf(feeBps: real, f: Fill): real {
    if Booked(f) then Fee(feeBps, f.px, f.qty) else 0.0
  }

  function SizeOf(f: Fill): real {
    if Booked(f) then Signed(f) else 0.0
  }

  /** What a fill has gained at `mark`. */
  function GainOf(f: Fill, mark: real): real {
    if Booked(f) then Signed(f) * (mark - f.px) else 0.0
  }

  /** Fees are in basis points, ten-thousandths of the value traded. */
  lemma FeeIs(feeBps: real, px: real, qty: real)
    ensures Fee(feeBps, px, qty) * 10000.0 == px * qty * feeBps
  {
    QuotientTimes(feeBps, 10000.0);
    assert px * qty * (feeBps / 10000.0) * 10000.0 == px * qty * (feeBps / 10000.0 * 10000.0);
  }

  /* The ledger: every fill is kept, nothing is averaged. */

  function NetPosition(fills: seq<Fill>): real {
    if fills == [] then 0.0 else NetPosition(fills[..|fills| - 1]) + SizeOf(fills[|fills| - 1])
  }

  /** What the fills are worth at `mark`: the sum of signed quantity times price move. */
  function MarkToMarket(fills: seq<Fill>, mark: real): real {
    if fills == [] then 0.0 else MarkToMarket(fills[..|fills| - 1], mark) + GainOf(fills[|fills| - 1], mark)
  }

  function NetCost(fills: seq<Fill>): real {
    if fills == [] then 0.0 else NetCost(fills[..|fills| - 1]) + CostOf(fills[|fills| - 1])
  }

  /** The value traded by a fill, and by all of them: price times quantity of what is booked. */
  function TradedBy(f: Fill): real {
    if Booked(f) then f.px * f.qty else 0.0
  }

  function Turnover(fills: seq<Fill>): real {
    if fills == [] then 0.0 else Turnover(fills[..|fills| - 1]) + TradedBy(fills[|fills| - 1])
  }

  function TotalFees(feeBps: real, fills: seq<Fill>): real {
    if fills == [] then 0.0 else TotalFees(feeBps, fills[..|fills| - 1]) + FeeOf(feeBps, fills[|fills| - 1])
  }

  /* Average-cost accounting in signed arithmetic. */

  datatype Account = Account(cash: real, pos: real, avgCost: real, realized: real)

  predicate Opposes(pos: real, signed: real) {
    (pos > 0.0 && signed < 0.0) || (pos < 0.0 && signed > 0.0)
  }

  /** The quantity of an existing position that an order of size `signed` closes. */
  function ClosedQty(pos: real, signed: real): real {
    if !Opposes(pos, signed) then 0.0
    else if Abs(pos) <= Abs(signed) then Abs(pos) else Abs(signed)
  }

  function RealizedBy(a: Account, f: Fill): real {
    if !Booked(f) then 0.0
    else if a.pos > 0.0 then (f.px - a.avgCost) * ClosedQty(a.pos, Signed(f))
    else (a.avgCost - f.px) * ClosedQty(a.pos, Signed(f))
  }

  /** Average cost after `f`: the weighted mean while the position grows, unchanged while it
      shrinks, the fill price once it has crossed zero, and zero when it is flat. */
  function AverageCostAfter(a: Account, f: Fill): real {
    var s := Signed(f);
    var pos' := a.pos + s;
    if pos' == 0.0 then 0.0
    else if !Opposes(a.pos, s) then (a.avgCost * a.pos + f.px * s) / pos'
    else if Opposes(a.pos, pos') then f.px
    else a.avgCost
  }

  function Applied(a: Account, feeBps: real, f: Fill): Account {
    if !Booked(f) then a else
      var r := RealizedBy(a, f);
      Account(a.cash + r - Fee(feeBps, f.px, f.qty), a.pos + Signed(f), AverageCostAfter(a, f), a.realized + r)
  }

  /** What average cost means: a fill on the other side realizes the distance from the average for what it
      closes, and only that; the average stays while the position shrinks, and a fill that crosses zero
      starts a new one. */
  predicate ClosesAtAverage(avgCost: real, pos: real, f: Fill, gain: real, avgAfter: real) {
    var size, better := if pos < 0.0 then -pos else pos, if pos < 0.0 then avgCost - f.px else f.px - avgCost;
    if pos == 0.0 || (pos > 0.0 <==> f.isBuy) then gain == 0.0
    else if f.qty < size then gain == better * f.qty && avgAfter == avgCost
    else gain == better * size && avgAfter == if f.qty == size then 0.0 else f.px
  }

  lemma AppliedClosesAtAverage(a: Account, f: Fill)
    requires Booked(f)
    ensures ClosesAtAverage(a.avgCost, a.pos, f, RealizedBy(a, f), AverageCostAfter(a, f))
  {
  }

  function Unrealized(a: Account, mark: real): real {
    if a.pos == 0.0 then 0.0 else (mark - a.avgCost) * a.pos
  }

  function Opening(cash: real): Account {
    Account(cash, 0.0, 0.0, 0.0)
  }

  function AppliedAll(a: Account, feeBps: real, fills: seq<Fill>): Account {
    if fills == [] then a
    else Applied(AppliedAll(a, feeBps, fills[..|fills| - 1]), feeBps, fills[|fills| - 1])
  }

  /** A flat account has no cost basis and an open one has a positive one. */
  predicate Sound(a: Account) {
    if a.pos == 0.0 then a.avgCost == 0.0 else a.avgCost > 0.0
  }

  /** One fill moves the cost basis `cash - avgCost * pos` by what the fill cost plus its fee:
      growing, shrinking, closing and flipping all obey the one equation. */
  lemma AppliedKeepsBasis(a: Account, feeBps: real, f: Fill)
    requires Sound(a) && Booked(f)
    ensures var b := Applied(a, feeBps, f);
      && Sound(b)
      && b.pos == a.pos + Signed(f)
      && b.cash - b.avgCost * b.pos == a.cash - a.avgCost * a.pos - Signed(f) * f.px - Fee(feeBps, f.px, f.qty)
      && b.cash - b.realized == a.cash - a.realized - Fee(feeBps, f.px, f.qty)
  {
    var s := Signed(f);
    var pos' := a.pos + s;
    var b := Applied(a, feeBps, f);
    if !Opposes(a.pos, s) {
      QuotientTimes(a.avgCost * a.pos + f.px * s, pos');
      assert b.avgCost * pos' == a.avgCost * a.pos + f.px * s;
      GrowingKeepsPositiveCost(a, f);
    } else if pos' == 0.0 {
      assert ClosedQty(a.pos, s) == Abs(a.pos);
      assert s == -a.pos;
    } else if Opposes(a.pos, pos') {
      assert ClosedQty(a.pos, s) == Abs(a.pos);
      assert RealizedBy(a, f) == (f.px - a.avgCost) * a.pos;
      assert b.avgCost * pos' == f.px * a.pos + f.px * s;
    } else {
      assert RealizedBy(a, f) == (f.px - a.avgCost) * (-s);
      assert b.avgCost * pos' == a.avgCost * a.pos + a.avgCost * s;
    }
  }

  /** The weighted mean of positive prices is positive, on either side of the book. */
  lemma GrowingKeepsPositiveCost(a: Account, f: Fill)
    requires Sound(a) && Booked(f) && !Opposes(a.pos, Signed(f))
    ensures a.pos + Signed(f) != 0.0 && AverageCostAfter(a, f) > 0.0
  {
    var s := Signed(f);
    var pos' := a.pos + s;
    var avg := AverageCostAfter(a, f);
    QuotientTimes(a.avgCost * a.pos + f.px * s, pos');
    if f.isBuy {
      ProductPositive(f.px, s);
      if a.pos > 0.0 {
        ProductPositive(a.avgCost, a.pos);
      }
      assert avg * pos' > 0.0 * pos';
      ProductOrder(avg, 0.0, pos');
    } else {
      ProductPositive(f.px, -s);
      if a.pos < 0.0 {
        ProductPositive(a.avgCost, -a.pos);
      }
      assert avg * -pos' > 0.0 * -pos';
      ProductOrder(avg, 0.0, -pos');
    }
  }

  lemma SplitOneFill(net: real, f: Fill, mark: real)
    ensures mark * (net + SizeOf(f)) - CostOf(f) == mark * net + GainOf(f, mark)
  {
  }

  lemma {:induction false} LedgerSplitsByMark(fills: seq<Fill>, mark: real)
    ensures MarkToMarket(fills, mark) == mark * NetPosition(fills) - NetCost(fills)
  {
    hide SizeOf, CostOf, GainOf;
    if fills == [] {
    } else {
      var f, prefix := fills[|fills| - 1], fills[..|fills| - 1];
      LedgerSplitsByMark(prefix, mark);
      SplitOneFill(NetPosition(prefix), f, mark);
    }
  }

  /** The account carries what the ledger says: its position is the net of the fills, and its
      cash, corrected by the cost basis, is the opening cash less what the fills cost. */
  predicate Carries(a: Account, cash: real, net: real, cost: real, fees: real) {
    && Sound(a)
    && a.pos == net
    && a.cash - a.avgCost * a.pos == cash - cost - fees
    && a.cash == cash + a.realized - fees
  }

  lemma CarriesOneMore(a: Account, cash: real, net: real, cost: real, fees: real, feeBps: real, f: Fill)
    requires Carries(a, cash, net, cost, fees)
    ensures Carries(Applied(a, feeBps, f), cash, net + SizeOf(f), cost + CostOf(f), fees + FeeOf(feeBps, f))
  {
    if Booked(f) {
      AppliedKeepsBasis(a, feeBps, f);
    }
  }

  lemma FeeOfIs(feeBps: real, f: Fill)
    ensures FeeOf(feeBps, f) * 10000.0 == feeBps * TradedBy(f)
  {
    FeeIs(feeBps, f.px, f.qty);
  }

  /** All fees are the basis points of the whole turnover. */
  lemma {:induction false} TotalFeesAreOfTurnover(feeBps: real, fills: seq<Fill>)
    ensures TotalFees(feeBps, fills) * 10000.0 == feeBps * Turnover(fills)
  {
    hide FeeOf, TradedBy;
    if fills != [] {
      var prefix, f := fills[..|fills| - 1], fills[|fills| - 1];
      TotalFeesAreOfTurnover(feeBps, prefix);
      FeeOfIs(feeBps, f);
      assert feeBps * (Turnover(prefix) + TradedBy(f)) == feeBps * Turnover(prefix) + feeBps * TradedBy(f);
    }
  }

  lemma {:induction false} AccountMatchesLedger(cash: real, feeBps: real, fills: seq<Fill>)
    ensures Carries(AppliedAll(Opening(cash), feeBps, fills), cash, NetPosition(fills), NetCost(fills),
                    TotalFees(feeBps, fills))
  {
    hide Applied, SizeOf, CostOf, FeeOf;
    if fills == [] {
    } else {
      var prefix, f := fills[..|fills| - 1], fills[|fills| - 1];
      AccountMatchesLedger(cash, feeBps, prefix);
      CarriesOneMore(AppliedAll(Opening(cash), feeBps, prefix), cash, NetPosition(prefix), NetCost(prefix),
                     TotalFees(feeBps, prefix), feeBps, f);
    }
  }

  lemma CarriedValue(a: Account, cash: real, net: real, cost: real, fees: real, mark: real)
    requires Carries(a, cash, net, cost, fees)
    ensures a.cash + Unrealized(a, mark) == cash + (mark * net - cost) - fees
    ensures a.realized + Unrealized(a, mark) == mark * net - cost
  {
    assert Unrealized(a, mark) == mark * a.pos - a.avgCost * a.pos;
  }

  /** Equity of an account is the opening cash plus the ledger's mark-to-market less its fees. */
  predicate ValuedAsLedger(a: Account, cash: real, feeBps: real, fills: seq<Fill>, mark: real) {
    && a.pos == NetPosition(fills)
    && a.cash + Unrealized(a, mark) == cash + MarkToMarket(fills, mark) - TotalFees(feeBps, fills)
    && a.realized + Unrealized(a, mark) == MarkToMarket(fills, mark)
  }

  lemma CarrierValuedAsLedger(a: Account, cash: real, feeBps: real, fills: seq<Fill>, mark: real)
    requires Carries(a, cash, NetPosition(fills), NetCost(fills), TotalFees(feeBps, fills))
    ensures ValuedAsLedger(a, cash, feeBps, fills, mark)
  {
    hide SizeOf, CostOf, FeeOf, GainOf;
    LedgerSplitsByMark(fills, mark);
    CarriedValue(a, cash, NetPosition(fills), NetCost(fills), TotalFees(feeBps, fills), mark);
  }

  /** Average-cost accounting is the full ledger: for every fill sequence and every mark, the
      position is the net of the fills and equity is the opening cash plus the ledger's
      mark-to-market less its fees. */
  lemma AverageCostEqualsLedger(cash: real, feeBps: real, fills: seq<Fill>, mark: real)
    ensures ValuedAsLedger(AppliedAll(Opening(cash), feeBps, fills), cash, feeBps, fills, mark)
  {
    hide *;
    AccountMatchesLedger(cash, feeBps, fills);
    CarrierValuedAsLedger(AppliedAll(Opening(cash), feeBps, fills), cash, feeBps, fills, mark);
  }

  /** Once the fills net to zero, realized profit is exactly the cash they moved, whatever the
      path of averages, partial closes and flips was. */
  lemma FlatAccountRealizesCashFlow(cash: real, feeBps: real, fills: seq<Fill>)
    requires NetPosition(fills) == 0.0
    ensures AppliedAll(Opening(cash), feeBps, fills).realized == -NetCost(fills)
  {
    hide Applied, AppliedAll, CostOf, GainOf;
    AverageCostEqualsLedger(cash, feeBps, fills, 0.0);
    LedgerSplitsByMark(fills, 0.0);
  }

  lemma NegatedQuotient(a: real, b: real)
    requires b != 0.0
    ensures (-a) / (-b) == a / b
  {
    QuotientTimes(a, b);
    assert -a == a / b * -b;
    QuotientIs(-a, -b, a / b);
  }

  /** The unsigned weighted mean that the code computes is the signed one. */
  lemma UnsignedMean(a: Account, f: Fill)
    requires Booked(f) && !Opposes(a.pos, Signed(f))
    ensures a.pos + Signed(f) != 0.0
    ensures a.pos == 0.0 ==> AverageCostAfter(a, f) == f.px
    ensures AverageCostAfter(a, f) == (a.avgCost * Abs(a.pos) + f.px * f.qty) / (Abs(a.pos) + f.qty)
  {
    var s := Signed(f);
    if a.pos == 0.0 {
      QuotientTimes(f.px * s, s);
      QuotientIs(f.px * s, s, f.px);
    }
    if !f.isBuy {
      assert a.avgCost * a.pos + f.px * s == -(a.avgCost * Abs(a.pos) + f.px * f.qty);
      NegatedQuotient(a.avgCost * Abs(a.pos) + f.px * f.qty, Abs(a.pos) + f.qty);
    }
  }

  /** Closing in the code's unsigned terms: what is closed, what is left and at which cost. */
  lemma UnsignedClose(a: Account, f: Fill, closeQty: real)
    requires Booked(f) && Opposes(a.pos, Signed(f))
    requires closeQty == if Abs(a.pos) <= f.qty then Abs(a.pos) else f.qty
    ensures ClosedQty(a.pos, Signed(f)) == closeQty && 0.0 < closeQty <= Abs(a.pos)
    ensures AverageCostAfter(a, f) ==
            if closeQty < f.qty then f.px else if closeQty == Abs(a.pos) then 0.0 else a.avgCost
    ensures RealizedBy(a, f) == (if a.pos > 0.0 then f.px - a.avgCost else a.avgCost - f.px) * closeQty
  {
  }

  /** The portfolio object, updated in place one order at a time. */
  class Book {
    var cash: real
    var pos: real
    var avgCost: real
    var realized: real
    var unrealized: real
    const feeBps: real

    constructor (cash: real, feeBps: real)
      ensures View() == Opening(cash) && unrealized == 0.0 && this.feeBps == feeBps
    {
      this.cash, this.feeBps := cash, feeBps;
      pos, avgCost, realized, unrealized := 0.0, 0.0, 0.0, 0.0;
    }

    function View(): Account
      reads this
    {
      Account(cash, pos, avgCost, realized)
    }

    method Apply(isBuy: bool, execPx: real, qty: real) returns (pnl: real, fee: real, tradeCompleted: bool)
      modifies `cash, `pos, `avgCost, `realized
      ensures View() == Applied(old(View()), feeBps, Fill(isBuy, execPx, qty))
      ensures pnl == RealizedBy(old(View()), Fill(isBuy, execPx, qty))
      ensures fee == FeeOf(feeBps, Fill(isBuy, execPx, qty))
      ensures qty > 0.0 && execPx > 0.0 ==> fee * 10000.0 == execPx * qty * feeBps
      ensures qty <= 0.0 || execPx <= 0.0 ==> fee == 0.0 && pnl == 0.0 && View() == old(View())
      ensures qty > 0.0 && execPx > 0.0 ==>
        && ClosesAtAverage(old(avgCost), old(pos), Fill(isBuy, execPx, qty), pnl, avgCost)
        && pos == (if isBuy then old(pos) + qty else old(pos) - qty)
        && realized == old(realized) + pnl && cash == old(cash) + pnl - fee
      ensures tradeCompleted <==>
        Booked(Fill(isBuy, execPx, qty)) && Opposes(old(pos), Signed(Fill(isBuy, execPx, qty)))
    {
      if qty <= 0.0 || execPx <= 0.0 {
        return 0.0, 0.0, false;
      }
      fee := Fee(feeBps, execPx, qty);
      FeeIs(feeBps, execPx, qty);
      AppliedClosesAtAverage(View(), Fill(isBuy, execPx, qty));
      hide Fee, RealizedBy, AverageCostAfter, ClosesAtAverage;
      var side := if isBuy then 1 else -1;
      var posSign := if pos > 0.0 then 1 else if pos < 0.0 then -1 else 0;
      if posSign == 0 || posSign == side {
        Grow(isBuy, execPx, qty);
        cash := cash - fee;
        return 0.0, fee, false;
      }
      tradeCompleted := true;
      pnl := Close(isBuy, execPx, qty);
      cash := cash + pnl;
      realized := realized + pnl;
      cash := cash - fee;
    }

    /** Closes as much of the open position as `qty` covers and opens what is left of `qty` on the
        other side. */
    method Close(isBuy: bool, execPx: real, qty: real) returns (pnl: real)
      requires Booked(Fill(isBuy, execPx, qty)) && Opposes(pos, Signed(Fill(isBuy, execPx, qty)))
      modifies `pos, `avgCost
      ensures pos == old(pos) + Signed(Fill(isBuy, execPx, qty))
      ensures avgCost == AverageCostAfter(old(View()), Fill(isBuy, execPx, qty))
      ensures pnl == RealizedBy(old(View()), Fill(isBuy, execPx, qty))
    {
      hide RealizedBy, AverageCostAfter;
      var closeQty := if Abs(pos) <= qty then Abs(pos) else qty;
      UnsignedClose(View(), Fill(isBuy, execPx, qty), closeQty);
      if pos > 0.0 {
        pnl := (execPx - avgCost) * closeQty;
      } else {
        pnl := (avgCost - execPx) * closeQty;
      }
      ReduceBy(closeQty);
      var remaining := qty - closeQty;
      if remaining != 0.0 {
        pos := if isBuy then pos + remaining else pos - remaining;
        avgCost := execPx;
      }
    }

    /** Adds to a flat or same-side position at the weighted mean price. */
    method Grow(isBuy: bool, execPx: real, qty: real)
      requires Booked(Fill(isBuy, execPx, qty)) && !Opposes(pos, Signed(Fill(isBuy, execPx, qty)))
      modifies `pos, `avgCost
      ensures pos == old(pos) + Signed(Fill(isBuy, execPx, qty)) != 0.0
      ensures avgCost == AverageCostAfter(old(View()), Fill(isBuy, execPx, qty))
    {
      UnsignedMean(View(), Fill(isBuy, execPx, qty));
      if pos == 0.0 {
        avgCost := execPx;
      } else {
        avgCost := (avgCost * Abs(pos) + execPx * qty) / (Abs(pos) + qty);
      }
      pos := if isBuy then pos + qty else pos - qty;
    }

    /** Takes `closeQty` off the open position; a position closed in full loses its cost basis. */
    method ReduceBy(closeQty: real)
      requires 0.0 < closeQty <= Abs(pos)
      modifies `pos, `avgCost
      ensures pos == if old(pos) > 0.0 then old(pos) - closeQty else old(pos) + closeQty
      ensures avgCost == if closeQty == Abs(old(pos)) then 0.0 else old(avgCost)
    {
      if closeQty == Abs(pos) {
        pos, avgCost := 0.0, 0.0;
      } else if pos > 0.0 {
        pos := pos - closeQty;
      } else {
        pos := pos + closeQty;
      }
    }

    method Equity(lastPx: real) returns (equity: real)
      modifies `unrealized
      ensures unrealized == Unrealized(View(), lastPx)
      ensures equity == cash + unrealized
    {
      unrealized := 0.0;
      if pos > 0.0 {
        unrealized := (lastPx - avgCost) * pos;
      } else if pos < 0.0 {
        unrealized := (avgCost - lastPx) * Abs(pos);
      }
      equity := cash + unrealized;
    }
  }
}
