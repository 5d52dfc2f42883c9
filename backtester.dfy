/** The TradingBacktester class: the backtester's fields updated in place by its methods, each
    method proved to leave the fields exactly as the session functions of module Replay say. */
module Backtester {
  import opened Wrappers
  import opened Ledger
  import opened ReferenceBand
  import opened Replay
  import ReplayProperties

  /** The number of rows iloc[:n] keeps. */
  function PrefixLength(n: nat, len: nat): (k: nat)
    ensures k <= len && k <= n && (k == n || k == len)
  {
    if n < len then n else len
  }

  class TradingBacktester {
    /** The day's rows, as load_data leaves them. */
    const rows: seq<Row>
    var trades: seq<Entry>
    var h: Option<int>
    var l: Option<int>
    var positionCount: nat
    var lastEntryPrice: Option<int>
    var dailyProfitLoss: int
    var parentTradeId: Option<nat>
    var parentCloseTime: Option<nat>
    var tradeIdCounter: nat

    /** The fields as one session value. */
    function State(): Session
      reads this
    {
      Session(trades, h, l, positionCount, lastEntryPrice, dailyProfitLoss, parentTradeId, parentCloseTime, tradeIdCounter)
    }

    ghost predicate Valid()
      reads this
    {
      Inv(State())
    }

    /** __init__ followed by load_data: an empty ledger, no band, nothing open. */
    constructor(rows: seq<Row>)
      ensures this.rows == rows
      ensures State() == Initial && Valid()
    {
      this.rows := rows;
      trades := [];
      h := None;
      l := None;
      positionCount := 0;
      lastEntryPrice := None;
      dailyProfitLoss := 0;
      parentTradeId := None;
      parentCloseTime := None;
      tradeIdCounter := 0;
      new;
      ReplayProperties.InitialInv();
    }

    /** set_reference_points: H and L become the highest High and lowest Low of the rows from
        08:45:00 to 09:04:59. */
    method SetReferencePoints()
      modifies this
      ensures State() == old(State()).(h := OpeningHigh(rows), l := OpeningLow(rows))
      ensures old(Valid()) ==> Valid()
    {
      h := OpeningHigh(rows);
      l := OpeningLow(rows);
    }

    /** update_reference_points(endIndex): H and L become the extremes of rows 0..endIndex
        (of all rows when endIndex is past the end). */
    method UpdateReferencePoints(endIndex: nat)
      modifies this
      ensures State() == old(State()).(h := MaxHigh(rows[..PrefixLength(endIndex + 1, |rows|)]),
                                       l := MinLow(rows[..PrefixLength(endIndex + 1, |rows|)]))
      ensures old(Valid()) ==> Valid()
    {
      var current := rows[..PrefixLength(endIndex + 1, |rows|)];
      h := MaxHigh(current);
      l := MinLow(current);
    }

    /** execute_trade(index, side, entryPrice). */
    method ExecuteTrade(index: nat, side: Side, entryPrice: int)
      requires index < |rows|
      modifies this
      ensures State() == ExecuteTradeSpec(old(State()), rows, index, side, entryPrice)
      ensures old(Valid()) && old(positionCount) < MaxPositions && CloseTimeNotAfter(old(State()), rows, index) ==> Valid()
    {
      ghost var s0 := State();
      var actual := rows[index].close;
      var takeProfit := if side == Buy then actual + StopLossPoints else actual - StopLossPoints;
      var stopLoss := if side == Buy then actual - StopLossPoints else actual + StopLossPoints;

      if parentCloseTime.Some? && rows[index].time >= parentCloseTime.value {
        parentTradeId := None;
        parentCloseTime := None;
      }

      // A fill within SafetyDistance of the last one in the trade's direction is skipped.
      var suppressed := lastEntryPrice.Some? &&
                        ((side == Buy && actual - lastEntryPrice.value <= SafetyDistance) ||
                         (side == Sell && lastEntryPrice.value - actual <= SafetyDistance));
      if !suppressed && ((side == Buy && actual >= entryPrice) || (side == Sell && actual <= entryPrice)) {
        tradeIdCounter := tradeIdCounter + 1;
        var isParent := parentTradeId.None?;
        if isParent {
          parentTradeId := Some(tradeIdCounter);
        }
        positionCount := positionCount + 1;
        lastEntryPrice := Some(actual);
        trades := trades + [Leg(tradeIdCounter, if isParent then None else parentTradeId, rows[index].time, side,
                                actual, None, None, None, takeProfit, stopLoss)];
      }
      ReplayProperties.ExecuteKeepsInv(s0, rows, index, side, entryPrice, State());
    }

    /** check_stop_loss(index): walks the ledger, moving each open leg's stop to breakeven once
        the Close is more than SafetyDistance in its favour, and flattens everything at the
        first open leg whose stop the Close reaches. */
    method CheckStopLoss(index: nat)
      requires index < |rows|
      modifies this
      ensures State() == CheckStopSpec(old(State()), rows, index)
      ensures old(Valid()) ==> Valid()
    {
      ghost var s0 := State();
      var price := rows[index].close;
      ghost var before := trades;
      var k := 0;
      while k < |trades|
        invariant 0 <= k <= |trades| == |before|
        invariant trades == RatchetPrefix(before, k, price, SafetyDistance)
        invariant forall j | 0 <= j < k :: !StopHit(Ratchet(before[j], price, SafetyDistance), price)
        invariant State() == old(State()).(trades := trades)
      {
        var trade := trades[k];
        assert trade == before[k];
        if IsOpenLeg(trade) {
          if trade.side == Buy && price - trade.entryPrice > SafetyDistance {
            trade := trade.(stopLoss := trade.entryPrice + 1);
            trades := trades[k := trade];
          } else if trade.side == Sell && trade.entryPrice - price > SafetyDistance {
            trade := trade.(stopLoss := trade.entryPrice - 1);
            trades := trades[k := trade];
          }
          assert trades == RatchetPrefix(before, k + 1, price, SafetyDistance);
          if (trade.side == Buy && price <= trade.stopLoss) || (trade.side == Sell && price >= trade.stopLoss) {
            assert FirstStopHit(before, price, SafetyDistance) == Some(k);
            ghost var ratcheted := State();
            assert ratcheted == old(State()).(trades := RatchetPrefix(before, k + 1, price, SafetyDistance));
            CloseAllPositions(index);
            assert State() == FlattenSpec(ratcheted, rows, index);
            ReplayProperties.CheckStopKeepsInv(s0, rows, index);
            // The loop's break ends the method.
            return;
          }
        }
        assert trades == RatchetPrefix(before, k + 1, price, SafetyDistance);
        k := k + 1;
      }
      assert FirstStopHit(before, price, SafetyDistance) == None;
      assert State() == old(State()).(trades := RatchetPrefix(before, |before|, price, SafetyDistance));
      ReplayProperties.CheckStopKeepsInv(s0, rows, index);
    }

    /** close_all_positions(index): closes every open leg at the row's Close and Time with its
        P&L, appends one "Close All" row carrying the total, adds the total to the day's P&L,
        resets the lot count and last fill, records the close time and re-anchors H/L. */
    method CloseAllPositions(index: nat)
      requires index < |rows|
      modifies this
      ensures State() == FlattenSpec(old(State()), rows, index)
      ensures old(Valid()) ==> Valid()
    {
      ghost var s0 := State();
      var closeTime := rows[index].time;
      var closePrice := rows[index].close;
      var total := 0;
      ghost var before := trades;
      var k := 0;
      while k < |trades|
        invariant 0 <= k <= |trades| == |before|
        invariant trades == ClosePrefix(before, k, closeTime, closePrice)
        invariant total == OpenPnl(before[..k], closePrice)
        invariant State() == old(State()).(trades := trades)
      {
        var trade := trades[k];
        assert before[..k + 1][..k] == before[..k] && Last(before[..k + 1]) == trade;
        if IsOpenLeg(trade) {
          var profitLoss := (closePrice - trade.entryPrice) * (if trade.side == Buy then 1 else -1);
          total := total + profitLoss;
          trades := trades[k := trade.(closeTime := Some(closeTime), closePrice := Some(closePrice), pnl := Some(profitLoss))];
        }
        assert trades == ClosePrefix(before, k + 1, closeTime, closePrice);
        k := k + 1;
      }
      assert trades == CloseOpen(before, closeTime, closePrice);
      assert before[..k] == before;
      assert PrefixLength(index + 1, |rows|) == index + 1;

      dailyProfitLoss := dailyProfitLoss + total;
      trades := trades + [CloseAll(closeTime, closePrice, total)];
      positionCount := 0;
      parentCloseTime := Some(closeTime);
      UpdateReferencePoints(index);
      lastEntryPrice := None;
      assert State() == old(State()).(trades := CloseOpen(before, closeTime, closePrice) + [CloseAll(closeTime, closePrice, total)],
                                      dailyProfitLoss := old(dailyProfitLoss) + total, positionCount := 0,
                                      parentCloseTime := Some(closeTime), h := MaxHigh(rows[..index + 1]),
                                      l := MinLow(rows[..index + 1]), lastEntryPrice := None);
      ReplayProperties.FlattenKeepsInv(s0, rows, index);
    }

    /** backtest: replays the rows in order; a row at or after 13:40:00 flattens and ends the
        loop, otherwise a breakout of H or L by EntryBuffer tries an entry (Buy first) while
        fewer than MaxPositions lots are open, and open lots are checked against their stops.
        From consistent fields and rows in time order the fields stay consistent, and a cutoff
        row leaves the book flat. */
    method Backtest()
      modifies this
      ensures State() == Run(old(State()), rows, 0)
      ensures old(Valid()) && SortedByTime(rows) && CloseTimeNotAfter(old(State()), rows, 0) ==> Valid()
      ensures FirstCutoffRow(rows, 0).Some? ==>
                positionCount == 0 && (forall j | 0 <= j < |trades| :: !IsOpenLeg(trades[j]))
                && trades != [] && Last(trades).CloseAll?
    {
      ghost var outcome := Run(old(State()), rows, 0);
      var i := 0;
      while i < |rows|
        invariant 0 <= i <= |rows|
        invariant Run(State(), rows, i) == outcome
        decreases |rows| - i
      {
        ghost var current := State();
        var currentTime := rows[i].time;
        var currentPrice := rows[i].close;

        if currentTime >= SessionCutoff {
          ReplayProperties.RunAtCutoffRow(current, rows, i);
          CloseAllPositions(i);
          assert State() == outcome;
          break;
        }

        if h.Some? && currentPrice >= h.value + EntryBuffer && positionCount < MaxPositions {
          assert BuySignal(current, currentPrice);
          ExecuteTrade(i, Buy, h.value + EntryBuffer);
        } else if l.Some? && currentPrice <= l.value - EntryBuffer && positionCount < MaxPositions {
          assert !BuySignal(current, currentPrice) && SellSignal(current, currentPrice);
          ExecuteTrade(i, Sell, l.value - EntryBuffer);
        } else {
          assert !BuySignal(current, currentPrice) && !SellSignal(current, currentPrice);
        }
        ghost var entered := State();
        assert entered == EntryPhase(current, rows, i);

        if positionCount > 0 {
          CheckStopLoss(i);
          assert State() == CheckStopSpec(entered, rows, i);
        }
        assert State() == StopPhase(entered, rows, i);
        ReplayProperties.RunBeforeCutoffRow(current, rows, i);
        assert Run(State(), rows, i + 1) == outcome;
        i := i + 1;
      }
      assert State() == outcome;
      ReplayProperties.RunOutcome(old(State()), rows);
    }

    /** get_results: the ledger, one record per leg and per "Close All", in the order written.
        When the fields are consistent its legs carry the IDs 1..tradeIdCounter in order, and
        the realised P&L of the legs and the totals of the "Close All" rows both sum to the
        day's P&L. */
    method GetResults() returns (ledger: seq<Entry>)
      ensures ledger == trades
      ensures Valid() ==> LegIds(ledger) == Upto(tradeIdCounter)
      ensures Valid() ==> ClosedPnl(ledger) == dailyProfitLoss && MarkerPnl(ledger) == dailyProfitLoss
      ensures Valid() ==> OpenCount(ledger) == positionCount <= MaxPositions
    {
      ledger := trades;
    }
  }
}
