/** What the session replay promises: its invariant is kept by every step, and the per-step
    and whole-session properties of entries, stops and flattens. */
module ReplayProperties {
  import opened Wrappers
  import opened Ledger
  import opened ReferenceBand
  import opened Replay

  lemma InitialInv()
    ensures Inv(Initial)
  {
  }

  lemma ResetKeepsInv(s: Session, time: nat)
    requires Inv(s)
    ensures Inv(ResetGroup(s, time))
    ensures ResetGroup(s, time).trades == s.trades
  {
  }

  /** Appending an open, well-formed leg to a well-formed ledger whose open legs come last
      keeps both facts; the leg either roots a new pyramid (when none is open) or joins the
      open one as a child of its root. */
  lemma AppendOpenLegShape(t: seq<Entry>, leg: Entry, root: nat)
    requires OpenSuffix(t) && (forall j | 0 <= j < |t| :: WellFormedEntry(t[j]))
    requires IsOpenLeg(leg) && WellFormedEntry(leg)
    requires || (OpenCount(t) == 0 && leg.parent.None? && leg.id == root)
             || (GroupRootedAt(t, root) && leg.parent == Some(root) && leg.id != root)
    ensures OpenSuffix(t + [leg]) && (forall j | 0 <= j < |t| + 1 :: WellFormedEntry((t + [leg])[j]))
    ensures GroupRootedAt(t + [leg], root)
  {
    var r := t + [leg];
    assert forall j | 0 <= j < |t| :: r[j] == t[j];
    assert r[|t|] == leg;
    if OpenCount(t) == 0 && leg.parent.None? && leg.id == root {
      NoOpenLegsNoPnl(t, 0);
    } else {
      var w :| 0 <= w < |t| && IsOpenLeg(t[w]) && t[w].id == root;
      assert r[w] == t[w];
    }
  }

  /** Appending a newly opened leg keeps the invariant, when it carries the next ID, the right
      parent and there is room for it. */
  lemma OpenLegKeepsInv(s: Session, rows: seq<Row>, index: nat, side: Side, entryPrice: int)
    requires index < |rows|
    requires Inv(s) && s.parentCloseTime.None? && s.positionCount < MaxPositions
    requires !Suppressed(s.lastEntryPrice, side, rows[index].close)
    requires (side == Buy && rows[index].close >= entryPrice) || (side == Sell && rows[index].close <= entryPrice)
    ensures Inv(ExecuteTradeSpec(s, rows, index, side, entryPrice))
  {
    var r := ExecuteTradeSpec(s, rows, index, side, entryPrice);
    assert ResetGroup(s, rows[index].time) == s;
    var leg := Last(r.trades);
    assert r.trades == s.trades + [leg];
    AppendAggregates(s.trades, leg, 0);
    AppendOpenLegShape(s.trades, leg, r.parentTradeId.value);
  }

  /** execute_trade keeps the invariant when called as the backtest loop calls it: with room
      for one more lot, on a row not earlier than the last flatten. r is the session it leaves. */
  lemma ExecuteKeepsInv(s: Session, rows: seq<Row>, index: nat, side: Side, entryPrice: int, r: Session)
    requires index < |rows| && r == ExecuteTradeSpec(s, rows, index, side, entryPrice)
    ensures Inv(s) && s.positionCount < MaxPositions && CloseTimeNotAfter(s, rows, index) ==> Inv(r)
  {
    if Inv(s) && s.positionCount < MaxPositions && CloseTimeNotAfter(s, rows, index) {
      var s1 := ResetGroup(s, rows[index].time);
      ResetKeepsInv(s, rows[index].time);
      if !Suppressed(s1.lastEntryPrice, side, rows[index].close)
         && ((side == Buy && rows[index].close >= entryPrice) || (side == Sell && rows[index].close <= entryPrice)) {
        OpenLegKeepsInv(s1, rows, index, side, entryPrice);
        assert ResetGroup(s1, rows[index].time) == s1;
      }
    }
  }

  /** close_all_positions keeps the invariant. */
  lemma FlattenKeepsInv(s: Session, rows: seq<Row>, index: nat)
    requires index < |rows|
    ensures Inv(s) ==> Inv(FlattenSpec(s, rows, index))
  {
    if Inv(s) {
      FlattenKeepsInvFrom(s, rows, index);
    }
  }

  lemma FlattenKeepsInvFrom(s: Session, rows: seq<Row>, index: nat)
    requires index < |rows| && Inv(s)
    ensures Inv(FlattenSpec(s, rows, index))
  {
    var t := rows[index].time;
    var p := rows[index].close;
    var closed := CloseOpen(s.trades, t, p);
    var marker := CloseAll(t, p, OpenPnl(s.trades, p));
    var r := FlattenSpec(s, rows, index);
    assert r.trades == closed + [marker];
    CloseOpenAggregates(s.trades, t, p);
    AppendAggregates(closed, marker, p);
    forall j | 0 <= j < |r.trades| ensures WellFormedEntry(r.trades[j]) && !IsOpenLeg(r.trades[j]) {
      if j < |closed| {
        assert WellFormedEntry(s.trades[j]);
      }
    }
  }

  /** Ratcheting keeps every record well formed, and keeps which records are open legs. */
  lemma RatchetPrefixWellFormed(s: seq<Entry>, n: nat, price: int)
    requires forall j | 0 <= j < |s| :: WellFormedEntry(s[j])
    ensures var t := RatchetPrefix(s, n, price, SafetyDistance);
      forall j | 0 <= j < |t| :: WellFormedEntry(t[j]) && (IsOpenLeg(t[j]) <==> IsOpenLeg(s[j]))
  {
    var t := RatchetPrefix(s, n, price, SafetyDistance);
    forall j | 0 <= j < |t| ensures WellFormedEntry(t[j]) && (IsOpenLeg(t[j]) <==> IsOpenLeg(s[j])) {
      assert WellFormedEntry(s[j]);
    }
  }

  /** Ledgers that differ only in stops have the same open legs, in the same order and pyramid. */
  lemma AgreeKeepsShape(s: seq<Entry>, t: seq<Entry>, root: nat)
    requires AgreeButStops(s, t)
    ensures OpenSuffix(s) ==> OpenSuffix(t)
    ensures GroupRootedAt(s, root) ==> GroupRootedAt(t, root)
    ensures s != [] && IsOpenLeg(Last(s)) ==> IsOpenLeg(Last(t)) && Last(t).entryPrice == Last(s).entryPrice
  {
    assert forall j | 0 <= j < |s| :: SameButStop(s[j], t[j]);
    if GroupRootedAt(s, root) {
      var w :| 0 <= w < |s| && IsOpenLeg(s[w]) && s[w].id == root;
      assert IsOpenLeg(t[w]) && t[w].id == root;
    }
  }

  /** Ratcheting any prefix of the ledger keeps the invariant. */
  lemma RatchetKeepsInv(s: Session, n: nat, price: int)
    requires Inv(s)
    ensures Inv(s.(trades := RatchetPrefix(s.trades, n, price, SafetyDistance)))
  {
    var t := RatchetPrefix(s.trades, n, price, SafetyDistance);
    RatchetPrefixAgrees(s.trades, n, price, SafetyDistance);
    AgreeAggregates(s.trades, t, price);
    RatchetPrefixWellFormed(s.trades, n, price);
    AgreeKeepsShape(s.trades, t, if s.parentTradeId.Some? then s.parentTradeId.value else 0);
  }

  /** check_stop_loss keeps the invariant. */
  lemma CheckStopKeepsInv(s: Session, rows: seq<Row>, index: nat)
    requires index < |rows|
    ensures Inv(s) ==> Inv(CheckStopSpec(s, rows, index))
  {
    if Inv(s) {
      CheckStopKeepsInvFrom(s, rows, index);
    }
  }

  lemma CheckStopKeepsInvFrom(s: Session, rows: seq<Row>, index: nat)
    requires index < |rows| && Inv(s)
    ensures Inv(CheckStopSpec(s, rows, index))
  {
    var p := rows[index].close;
    match FirstStopHit(s.trades, p, SafetyDistance)
    case None =>
      assert CheckStopSpec(s, rows, index) == s.(trades := RatchetPrefix(s.trades, |s.trades|, p, SafetyDistance));
      RatchetKeepsInv(s, |s.trades|, p);
    case Some(k) =>
      assert CheckStopSpec(s, rows, index)
          == FlattenSpec(s.(trades := RatchetPrefix(s.trades, k + 1, p, SafetyDistance)), rows, index);
      StopOutKeepsInv(s, rows, index, k);
  }

  lemma StopOutKeepsInv(s: Session, rows: seq<Row>, index: nat, k: nat)
    requires index < |rows| && Inv(s)
    ensures Inv(FlattenSpec(s.(trades := RatchetPrefix(s.trades, k + 1, rows[index].close, SafetyDistance)), rows, index))
  {
    RatchetKeepsInv(s, k + 1, rows[index].close);
    FlattenKeepsInv(s.(trades := RatchetPrefix(s.trades, k + 1, rows[index].close, SafetyDistance)), rows, index);
  }

  /** The entry decision keeps the invariant, and the root's close time stays at most the
      row's time. */
  lemma EntryPhaseKeepsInv(s: Session, rows: seq<Row>, i: nat)
    requires i < |rows| && Inv(s) && CloseTimeNotAfter(s, rows, i)
    ensures Inv(EntryPhase(s, rows, i)) && CloseTimeNotAfter(EntryPhase(s, rows, i), rows, i)
  {
    var p := rows[i].close;
    if BuySignal(s, p) {
      assert EntryPhase(s, rows, i) == ExecuteTradeSpec(s, rows, i, Buy, s.h.value + EntryBuffer);
      ExecuteKeepsInv(s, rows, i, Buy, s.h.value + EntryBuffer, EntryPhase(s, rows, i));
      ExecuteCloseTime(s, rows, i, Buy, s.h.value + EntryBuffer);
    } else if SellSignal(s, p) {
      assert EntryPhase(s, rows, i) == ExecuteTradeSpec(s, rows, i, Sell, s.l.value - EntryBuffer);
      ExecuteKeepsInv(s, rows, i, Sell, s.l.value - EntryBuffer, EntryPhase(s, rows, i));
      ExecuteCloseTime(s, rows, i, Sell, s.l.value - EntryBuffer);
    }
  }

  /** The stop check keeps the invariant, and the root's close time stays at most the row's time. */
  lemma StopPhaseKeepsInv(s: Session, rows: seq<Row>, i: nat)
    requires i < |rows| && Inv(s) && CloseTimeNotAfter(s, rows, i)
    ensures Inv(StopPhase(s, rows, i)) && CloseTimeNotAfter(StopPhase(s, rows, i), rows, i)
  {
    if s.positionCount > 0 {
      CheckStopKeepsInv(s, rows, i);
      CheckStopCloseTime(s, rows, i);
    }
  }

  lemma ExecuteCloseTime(s: Session, rows: seq<Row>, index: nat, side: Side, entryPrice: int)
    requires index < |rows|
    ensures var r := ExecuteTradeSpec(s, rows, index, side, entryPrice);
      r.parentCloseTime == s.parentCloseTime || r.parentCloseTime.None?
  {
  }

  lemma CheckStopCloseTime(s: Session, rows: seq<Row>, index: nat)
    requires index < |rows|
    ensures var r := CheckStopSpec(s, rows, index);
      r.parentCloseTime == s.parentCloseTime || r.parentCloseTime == Some(rows[index].time)
  {
  }

  /** One pass of the loop keeps the invariant, and leaves the root's close time at most the
      row's time. */
  lemma RowStepKeepsInv(s: Session, rows: seq<Row>, i: nat)
    requires i < |rows| && Inv(s) && CloseTimeNotAfter(s, rows, i)
    ensures Inv(RowStep(s, rows, i).0) && CloseTimeNotAfter(RowStep(s, rows, i).0, rows, i)
  {
    if rows[i].time < SessionCutoff {
      EntryPhaseKeepsInv(s, rows, i);
      StopPhaseKeepsInv(EntryPhase(s, rows, i), rows, i);
    } else {
      FlattenKeepsInv(s, rows, i);
    }
  }

  /** The whole replay keeps the invariant, for rows in time order. */
  lemma {:induction false} RunKeepsInv(s: Session, rows: seq<Row>, i: nat)
    requires Inv(s) && SortedByTime(rows) && CloseTimeNotAfter(s, rows, i)
    ensures Inv(Run(s, rows, i))
    decreases |rows| - i
  {
    if i < |rows| {
      RowStepKeepsInv(s, rows, i);
      var (next, stop) := RowStep(s, rows, i);
      if !stop {
        RunKeepsInv(next, rows, i + 1);
      }
    }
  }

  /** A leg opened by execute_trade: the next ID, one lot at the row's Close and Time, stop and
      target StopLossPoints away, and no parent exactly when no pyramid is open, otherwise
      the open root's ID. When no leg opens (spacing, or no breakout), the ledger, counter,
      open-lot count and last fill are unchanged. */
  lemma {:induction false} NewLegFields(s: Session, rows: seq<Row>, index: nat, side: Side, entryPrice: int)
    requires index < |rows|
    requires Inv(s) && s.positionCount < MaxPositions && CloseTimeNotAfter(s, rows, index)
    ensures var r := ExecuteTradeSpec(s, rows, index, side, entryPrice);
      var price := rows[index].close;
      var opens := (!Suppressed(s.lastEntryPrice, side, price)
                    && ((side == Buy && price >= entryPrice) || (side == Sell && price <= entryPrice)));
      && (opens ==>
            && |r.trades| == |s.trades| + 1 && r.trades[..|s.trades|] == s.trades
            && var leg := Last(r.trades);
            && leg.Leg? && IsOpenLeg(leg)
            && leg.id == s.tradeIdCounter + 1 && r.tradeIdCounter == leg.id
            && leg.side == side && leg.entryPrice == price && leg.entryTime == rows[index].time
            && leg.stopLoss == InitialStop(side, price) && leg.takeProfit == TakeProfit(side, price)
            && (leg.parent.None? <==> s.positionCount == 0)
            && (leg.parent.Some? ==> exists j | 0 <= j < |s.trades| ::
                  IsOpenLeg(s.trades[j]) && s.trades[j].id == leg.parent.value && s.trades[j].parent.None?)
            && r.positionCount == s.positionCount + 1
            && r.lastEntryPrice == Some(price))
      && (!opens ==>
            && r.trades == s.trades && r.tradeIdCounter == s.tradeIdCounter
            && r.positionCount == s.positionCount && r.lastEntryPrice == s.lastEntryPrice)
  {
    var r := ExecuteTradeSpec(s, rows, index, side, entryPrice);
    var s1 := ResetGroup(s, rows[index].time);
    if s.positionCount > 0 {
      assert s1 == s;
      var root := s.parentTradeId.value;
      var w :| 0 <= w < |s.trades| && IsOpenLeg(s.trades[w]) && s.trades[w].id == root;
      assert s.trades[w].parent.None?;
    }
    assert r.trades[..|s.trades|] == s.trades || r.trades == s.trades;
  }

  /** The spacing rule: with a last fill and a move of at most SafetyDistance in the trade's
      direction, nothing but the pyramid reset happens. */
  lemma SpacingSuppression(s: Session, rows: seq<Row>, index: nat, side: Side, entryPrice: int)
    requires index < |rows|
    requires s.lastEntryPrice.Some?
    requires side == Buy ==> rows[index].close - s.lastEntryPrice.value <= SafetyDistance
    requires side == Sell ==> s.lastEntryPrice.value - rows[index].close <= SafetyDistance
    ensures ExecuteTradeSpec(s, rows, index, side, entryPrice) == ResetGroup(s, rows[index].time)
    ensures ResetGroup(s, rows[index].time).(parentTradeId := s.parentTradeId, parentCloseTime := s.parentCloseTime) == s
  {
  }

  /** Helper of FlattenFacts: which records the flatten closes. */
  lemma FlattenClosesLegs(s: Session, rows: seq<Row>, index: nat)
    requires index < |rows|
    ensures var r := FlattenSpec(s, rows, index);
      var t := rows[index].time;
      var p := rows[index].close;
      && |r.trades| == |s.trades| + 1
      && (forall j | 0 <= j < |r.trades| :: !IsOpenLeg(r.trades[j]))
      && (forall j | 0 <= j < |s.trades| && IsOpenLeg(s.trades[j]) ::
            r.trades[j] == s.trades[j].(closeTime := Some(t), closePrice := Some(p),
                                        pnl := Some(Signed(s.trades[j].side, s.trades[j].entryPrice, p))))
      && (forall j | 0 <= j < |s.trades| && !IsOpenLeg(s.trades[j]) :: r.trades[j] == s.trades[j])
  {
    var r := FlattenSpec(s, rows, index);
    var closed := CloseOpen(s.trades, rows[index].time, rows[index].close);
    assert r.trades[..|s.trades|] == closed;
  }

  /** Helper of FlattenFacts: the "Close All" total is the P&L the flatten realises. */
  lemma FlattenTotal(s: Session, rows: seq<Row>, index: nat)
    requires index < |rows|
    ensures var r := FlattenSpec(s, rows, index);
      && r.trades != []
      && Last(r.trades) == CloseAll(rows[index].time, rows[index].close, ClosedPnl(r.trades) - ClosedPnl(s.trades))
      && r.dailyProfitLoss == s.dailyProfitLoss + (ClosedPnl(r.trades) - ClosedPnl(s.trades))
      && (OpenCount(s.trades) == 0 ==> Last(r.trades).total == 0)
  {
    var r := FlattenSpec(s, rows, index);
    var t := rows[index].time;
    var p := rows[index].close;
    var closed := CloseOpen(s.trades, t, p);
    var marker := CloseAll(t, p, OpenPnl(s.trades, p));
    assert r.trades == closed + [marker];
    CloseOpenAggregates(s.trades, t, p);
    AppendAggregates(closed, marker, p);
    if OpenCount(s.trades) == 0 {
      NoOpenLegsNoPnl(s.trades, p);
    }
  }

  /** close_all_positions at row index, on the ledger: every leg is closed; each leg that was
      open gets the row's Time, Close and its signed P&L and closed ones are untouched; exactly
      one "Close All" row is appended whose total is the P&L just realised, which is also what
      the daily P&L grows by (zero when nothing was open). */
  lemma FlattenFacts(s: Session, rows: seq<Row>, index: nat)
    requires index < |rows|
    ensures var r := FlattenSpec(s, rows, index);
      var t := rows[index].time;
      var p := rows[index].close;
      && |r.trades| == |s.trades| + 1
      && (forall j | 0 <= j < |r.trades| :: !IsOpenLeg(r.trades[j]))
      && (forall j | 0 <= j < |s.trades| && IsOpenLeg(s.trades[j]) ::
            r.trades[j] == s.trades[j].(closeTime := Some(t), closePrice := Some(p),
                                        pnl := Some(Signed(s.trades[j].side, s.trades[j].entryPrice, p))))
      && (forall j | 0 <= j < |s.trades| && !IsOpenLeg(s.trades[j]) :: r.trades[j] == s.trades[j])
      && Last(r.trades) == CloseAll(t, p, ClosedPnl(r.trades) - ClosedPnl(s.trades))
      && r.dailyProfitLoss == s.dailyProfitLoss + (ClosedPnl(r.trades) - ClosedPnl(s.trades))
      && (OpenCount(s.trades) == 0 ==> Last(r.trades).total == 0)
  {
    FlattenClosesLegs(s, rows, index);
    FlattenTotal(s, rows, index);
  }

  /** close_all_positions at row index, on the other fields: the lot count and last fill are
      reset, the root's close time is the row's Time, the parent ID and the ID counter are kept,
      and H/L become the highest High and lowest Low of rows 0..index. */
  lemma FlattenBandFacts(s: Session, rows: seq<Row>, index: nat)
    requires index < |rows|
    ensures var r := FlattenSpec(s, rows, index);
      && r.positionCount == 0 && r.lastEntryPrice.None? && r.parentCloseTime == Some(rows[index].time)
      && r.parentTradeId == s.parentTradeId && r.tradeIdCounter == s.tradeIdCounter
      && r.h.Some? && r.l.Some?
      && (forall k | 0 <= k <= index :: rows[k].high <= r.h.value && r.l.value <= rows[k].low)
      && (exists k | 0 <= k <= index :: rows[k].high == r.h.value)
      && (exists k | 0 <= k <= index :: rows[k].low == r.l.value)
  {
    var r := FlattenSpec(s, rows, index);
    var prefix := rows[..index + 1];
    assert forall k | 0 <= k <= index :: rows[k] == prefix[k];
    var kh :| 0 <= kh < |prefix| && prefix[kh].high == r.h.value;
    var kl :| 0 <= kl < |prefix| && prefix[kl].low == r.l.value;
  }

  /** check_stop_loss at row index when some open leg, after its ratchet, has its stop reached
      by the row's Close: every leg is closed at that row and a "Close All" row ends the ledger. */
  lemma StopOutFlattens(s: Session, rows: seq<Row>, index: nat)
    requires index < |rows|
    requires exists j | 0 <= j < |s.trades| ::
               StopHit(Ratchet(s.trades[j], rows[index].close, SafetyDistance), rows[index].close)
    ensures var r := CheckStopSpec(s, rows, index);
      && r.positionCount == 0 && r.lastEntryPrice.None?
      && r.parentCloseTime == Some(rows[index].time)
      && (forall j | 0 <= j < |r.trades| :: !IsOpenLeg(r.trades[j]))
      && |r.trades| == |s.trades| + 1
      && Last(r.trades).CloseAll? && Last(r.trades).time == rows[index].time
      && Last(r.trades).price == rows[index].close
  {
    var p := rows[index].close;
    var k := FirstStopHit(s.trades, p, SafetyDistance).value;
    FlattenFacts(s.(trades := RatchetPrefix(s.trades, k + 1, p, SafetyDistance)), rows, index);
  }

  /** check_stop_loss at row index when no stop is reached: each entry is ratcheted and nothing
      else in the session changes. */
  lemma NoStopOutRatchets(s: Session, rows: seq<Row>, index: nat)
    requires index < |rows|
    requires forall j | 0 <= j < |s.trades| ::
               !StopHit(Ratchet(s.trades[j], rows[index].close, SafetyDistance), rows[index].close)
    ensures var r := CheckStopSpec(s, rows, index);
      && r == s.(trades := r.trades)
      && |r.trades| == |s.trades|
      && forall j | 0 <= j < |s.trades| :: r.trades[j] == Ratchet(s.trades[j], rows[index].close, SafetyDistance)
  {
  }

  /** Whatever check_stop_loss does, it keeps every record at its place, never modifies a closed
      leg or a "Close All" row, and legs after the first stopped one keep their stops. */
  lemma StopScanFrame(s: Session, rows: seq<Row>, index: nat)
    requires index < |rows|
    ensures var r := CheckStopSpec(s, rows, index);
      && Extends(s.trades, r.trades)
      && (forall j | 0 <= j < |s.trades| && !IsOpenLeg(s.trades[j]) :: r.trades[j] == s.trades[j])
      && (forall j | 0 <= j < |s.trades| && FirstStopHit(s.trades, rows[index].close, SafetyDistance).Some?
                     && FirstStopHit(s.trades, rows[index].close, SafetyDistance).value < j && s.trades[j].Leg? ::
            r.trades[j].Leg? && r.trades[j].stopLoss == s.trades[j].stopLoss)
  {
    var p := rows[index].close;
    var t := rows[index].time;
    match FirstStopHit(s.trades, p, SafetyDistance)
    case None =>
      ExtendsByLedgerChanges(s.trades, |s.trades|, t, p, SafetyDistance, CloseAll(t, p, 0));
    case Some(k) =>
      var ratcheted := RatchetPrefix(s.trades, k + 1, p, SafetyDistance);
      var closed := CloseOpen(ratcheted, t, p);
      var r := CheckStopSpec(s, rows, index);
      assert r.trades == closed + [CloseAll(t, p, OpenPnl(ratcheted, p))];
      ExtendsByLedgerChanges(s.trades, k + 1, t, p, SafetyDistance, CloseAll(t, p, 0));
      ExtendsByLedgerChanges(ratcheted, k + 1, t, p, SafetyDistance, CloseAll(t, p, OpenPnl(ratcheted, p)));
      ExtendsByLedgerChanges(closed, k + 1, t, p, SafetyDistance, CloseAll(t, p, OpenPnl(ratcheted, p)));
      ExtendsTransitive(s.trades, ratcheted, closed);
      ExtendsTransitive(s.trades, closed, r.trades);
  }

  /** The breakeven ratchet only tightens a stop: it moves the initial stop of a leg whose price
      has run more than the safety distance to one point past the entry, never back, and doing it
      twice is doing it once. */
  lemma RatchetTightens(e: Entry, price: int)
    requires WellFormedEntry(e)
    ensures var r := Ratchet(e, price, SafetyDistance);
      && WellFormedEntry(r)
      && (r.Leg? ==> r.side == e.side && r.entryPrice == e.entryPrice && r.closeTime == e.closeTime)
      && (e.Leg? && e.side == Buy ==> r.stopLoss >= e.stopLoss && r.stopLoss >= InitialStop(e.side, e.entryPrice))
      && (e.Leg? && e.side == Sell ==> r.stopLoss <= e.stopLoss && r.stopLoss <= InitialStop(e.side, e.entryPrice))
      && (e.Leg? && e.stopLoss == BreakevenStop(e.side, e.entryPrice) ==> r == e)
      && Ratchet(r, price, SafetyDistance) == r
  {
  }

  /** Entries past |s| of t that are legs were opened before `bound`. */
  ghost predicate NewLegsBefore(s: seq<Entry>, t: seq<Entry>, bound: nat) {
    forall j | |s| <= j < |t| && t[j].Leg? :: t[j].entryTime < bound
  }

  lemma NewLegsBeforeTransitive(s: seq<Entry>, t: seq<Entry>, u: seq<Entry>, bound: nat)
    requires Extends(s, t) && Extends(t, u)
    requires NewLegsBefore(s, t, bound) && NewLegsBefore(t, u, bound)
    ensures Extends(s, u) && NewLegsBefore(s, u, bound)
  {
    forall j | |s| <= j < |u| && u[j].Leg?
      ensures u[j].entryTime < bound
    {
      if j < |t| {
        assert Evolves(t[j], u[j]);
      }
    }
  }

  /** execute_trade keeps every record and adds at most a leg opened at the row's time. */
  lemma ExecuteGrowsLedger(s: Session, rows: seq<Row>, i: nat, side: Side, entryPrice: int)
    requires i < |rows|
    ensures Extends(s.trades, ExecuteTradeSpec(s, rows, i, side, entryPrice).trades)
    ensures NewLegsBefore(s.trades, ExecuteTradeSpec(s, rows, i, side, entryPrice).trades, rows[i].time + 1)
  {
    var r := ExecuteTradeSpec(s, rows, i, side, entryPrice);
    if r.trades == s.trades {
      ExtendsByLedgerChanges(s.trades, 0, 0, 0, 0, CloseAll(0, 0, 0));
    } else {
      assert r.trades == s.trades + [Last(r.trades)];
      ExtendsByLedgerChanges(s.trades, 0, 0, 0, 0, Last(r.trades));
    }
  }

  /** close_all_positions keeps every record and opens no leg. */
  lemma FlattenGrowsLedger(s: Session, rows: seq<Row>, i: nat)
    requires i < |rows|
    ensures Extends(s.trades, FlattenSpec(s, rows, i).trades)
    ensures NewLegsBefore(s.trades, FlattenSpec(s, rows, i).trades, 0)
  {
    var t := rows[i].time;
    var p := rows[i].close;
    var closed := CloseOpen(s.trades, t, p);
    var marker := CloseAll(t, p, OpenPnl(s.trades, p));
    assert FlattenSpec(s, rows, i).trades == closed + [marker];
    ExtendsByLedgerChanges(s.trades, 0, t, p, SafetyDistance, marker);
    ExtendsByLedgerChanges(closed, 0, t, p, SafetyDistance, marker);
    ExtendsTransitive(s.trades, closed, closed + [marker]);
  }

  /** check_stop_loss keeps every record and opens no leg. */
  lemma CheckStopGrowsLedger(s: Session, rows: seq<Row>, i: nat)
    requires i < |rows|
    ensures Extends(s.trades, CheckStopSpec(s, rows, i).trades)
    ensures NewLegsBefore(s.trades, CheckStopSpec(s, rows, i).trades, 0)
  {
    var p := rows[i].close;
    StopScanFrame(s, rows, i);
    match FirstStopHit(s.trades, p, SafetyDistance)
    case None =>
    case Some(k) =>
      var s1 := s.(trades := RatchetPrefix(s.trades, k + 1, p, SafetyDistance));
      FlattenGrowsLedger(s1, rows, i);
  }

  /** One row of the loop keeps every record at its place and only opens legs before the cutoff. */
  lemma RowStepGrowsLedger(s: Session, rows: seq<Row>, i: nat)
    requires i < |rows|
    ensures Extends(s.trades, RowStep(s, rows, i).0.trades)
    ensures NewLegsBefore(s.trades, RowStep(s, rows, i).0.trades, SessionCutoff)
  {
    var p := rows[i].close;
    if rows[i].time >= SessionCutoff {
      FlattenGrowsLedger(s, rows, i);
    } else {
      var s1 := EntryPhase(s, rows, i);
      if BuySignal(s, p) {
        ExecuteGrowsLedger(s, rows, i, Buy, s.h.value + EntryBuffer);
      } else if SellSignal(s, p) {
        ExecuteGrowsLedger(s, rows, i, Sell, s.l.value - EntryBuffer);
      } else {
        ExtendsByLedgerChanges(s.trades, 0, 0, 0, 0, CloseAll(0, 0, 0));
      }
      if s1.positionCount > 0 {
        CheckStopGrowsLedger(s1, rows, i);
        NewLegsBeforeTransitive(s.trades, s1.trades, CheckStopSpec(s1, rows, i).trades, SessionCutoff);
      }
    }
  }

  /** The replay keeps every record at its place, and every leg it opens was opened at a row
      before 13:40:00. */
  lemma {:induction false} RunOpensLegsBeforeCutoff(s: Session, rows: seq<Row>, i: nat)
    ensures Extends(s.trades, Run(s, rows, i).trades)
    ensures NewLegsBefore(s.trades, Run(s, rows, i).trades, SessionCutoff)
    decreases |rows| - i
  {
    if i >= |rows| {
      ExtendsByLedgerChanges(s.trades, 0, 0, 0, 0, CloseAll(0, 0, 0));
    } else {
      var (next, stop) := RowStep(s, rows, i);
      RowStepGrowsLedger(s, rows, i);
      if !stop {
        RunOpensLegsBeforeCutoff(next, rows, i + 1);
        NewLegsBeforeTransitive(s.trades, next.trades, Run(next, rows, i + 1).trades, SessionCutoff);
      }
    }
  }

  /** The first row at or after 13:40:00 flattens the book and ends the replay: nothing is left
      open and the ledger ends with that row's "Close All". */
  lemma {:induction false} RunFlattensAtCutoff(s: Session, rows: seq<Row>, i: nat)
    requires FirstCutoffRow(rows, i).Some?
    ensures var r := Run(s, rows, i);
      var c := FirstCutoffRow(rows, i).value;
      && r.positionCount == 0 && r.lastEntryPrice.None?
      && r.parentCloseTime == Some(rows[c].time)
      && (forall j | 0 <= j < |r.trades| :: !IsOpenLeg(r.trades[j]))
      && r.trades != [] && Last(r.trades).CloseAll?
      && Last(r.trades).time == rows[c].time && Last(r.trades).price == rows[c].close
    decreases |rows| - i
  {
    if rows[i].time >= SessionCutoff {
      FlattenFacts(s, rows, i);
    } else {
      var (next, stop) := RowStep(s, rows, i);
      RunFlattensAtCutoff(next, rows, i + 1);
    }
  }

  /** A worked session with band H = 18000, L = 17950 and three rows closing at 18011, 18042 and
      18005: a Buy root at 18011, a pyramided Buy at 18042 (which also moves the root's stop to
      breakeven 18012), then the 18005 row stops the root out and flattens both legs for
      -6 and -37, a "Close All" of -43. */
  const WorkedRows: seq<Row> :=
    [Row(Clock(9, 10, 0), 18011, 18011, 18011), Row(Clock(9, 11, 0), 18042, 18042, 18042),
     Row(Clock(9, 12, 0), 18005, 18005, 18005)]
  const WorkedStart: Session := Initial.(h := Some(18000), l := Some(17950))
  /** The root leg as opened, then with its stop at breakeven. */
  const WorkedRoot: Entry := Leg(1, None, Clock(9, 10, 0), Buy, 18011, None, None, None, 18041, 17981)
  const WorkedRootBreakeven: Entry := WorkedRoot.(stopLoss := 18012)
  const WorkedChild: Entry := Leg(2, Some(1), Clock(9, 11, 0), Buy, 18042, None, None, None, 18072, 18012)
  /** The fields after rows 0 and 1. */
  const WorkedAfterRow0: Session :=
    WorkedStart.(trades := [WorkedRoot], tradeIdCounter := 1, parentTradeId := Some(1),
                 positionCount := 1, lastEntryPrice := Some(18011))
  const WorkedAfterRow1: Session :=
    WorkedAfterRow0.(trades := [WorkedRootBreakeven, WorkedChild], tradeIdCounter := 2, positionCount := 2,
                     lastEntryPrice := Some(18042))
  /** The fields after the session. */
  const WorkedEnd: Session := Session(
    [Leg(1, None, Clock(9, 10, 0), Buy, 18011, Some(Clock(9, 12, 0)), Some(18005), Some(-6), 18041, 18012),
     Leg(2, Some(1), Clock(9, 11, 0), Buy, 18042, Some(Clock(9, 12, 0)), Some(18005), Some(-37), 18072, 18012),
     CloseAll(Clock(9, 12, 0), 18005, -43)],
    Some(18042), Some(18005), 0, None, -43, Some(1), Some(Clock(9, 12, 0)), 2)

  lemma WorkedSession()
    ensures Run(WorkedStart, WorkedRows, 0) == WorkedEnd
  {
    WorkedRow0();
    RunBeforeCutoffRow(WorkedStart, WorkedRows, 0);
    WorkedRow1();
    RunBeforeCutoffRow(WorkedAfterRow0, WorkedRows, 1);
    WorkedRow2();
    RunBeforeCutoffRow(WorkedAfterRow1, WorkedRows, 2);
  }

  /** Helpers of WorkedSession, one row each. */
  lemma WorkedRow0()
    ensures StopPhase(EntryPhase(WorkedStart, WorkedRows, 0), WorkedRows, 0) == WorkedAfterRow0
  {
    assert EntryPhase(WorkedStart, WorkedRows, 0) == WorkedAfterRow0;
    assert FirstStopHit([WorkedRoot], 18011, SafetyDistance) == None;
    assert RatchetPrefix([WorkedRoot], 1, 18011, SafetyDistance) == [WorkedRoot];
  }

  lemma WorkedRow1()
    ensures StopPhase(EntryPhase(WorkedAfterRow0, WorkedRows, 1), WorkedRows, 1) == WorkedAfterRow1
  {
    var entered := WorkedAfterRow0.(trades := [WorkedRoot, WorkedChild], tradeIdCounter := 2,
                                    positionCount := 2, lastEntryPrice := Some(18042));
    assert EntryPhase(WorkedAfterRow0, WorkedRows, 1) == entered;
    assert FirstStopHit([WorkedChild], 18042, SafetyDistance) == None;
    assert FirstStopHit(entered.trades, 18042, SafetyDistance) == None;
    assert RatchetPrefix(entered.trades, 2, 18042, SafetyDistance) == [WorkedRootBreakeven, WorkedChild];
  }

  lemma WorkedRow2()
    ensures StopPhase(EntryPhase(WorkedAfterRow1, WorkedRows, 2), WorkedRows, 2) == WorkedEnd
  {
    var s := WorkedAfterRow1;
    assert EntryPhase(s, WorkedRows, 2) == s;
    assert FirstStopHit(s.trades, 18005, SafetyDistance) == Some(0);
    assert RatchetPrefix(s.trades, 1, 18005, SafetyDistance) == s.trades;
    WorkedFlatten();
  }

  lemma WorkedFlatten()
    ensures FlattenSpec(WorkedAfterRow1, WorkedRows, 2) == WorkedEnd
  {
    var s := WorkedAfterRow1;
    assert OpenPnl(s.trades, 18005) == -43 by {
      assert [WorkedRootBreakeven][..0] == [];
      assert OpenPnl([WorkedRootBreakeven], 18005) == -6;
      assert s.trades[..1] == [WorkedRootBreakeven];
    }
    assert WorkedRows[..3] == WorkedRows;
    assert MaxHigh(WorkedRows) == Some(18042);
    assert MinLow(WorkedRows) == Some(18005);
  }

  /** The replay from a row at or after the cutoff is the flatten at that row. */
  lemma RunAtCutoffRow(s: Session, rows: seq<Row>, i: nat)
    requires i < |rows| && rows[i].time >= SessionCutoff
    ensures Run(s, rows, i) == FlattenSpec(s, rows, i)
  {
  }

  /** The replay from a row before the cutoff is the replay from the next row, after that row's
      entry decision and stop check. */
  lemma RunBeforeCutoffRow(s: Session, rows: seq<Row>, i: nat)
    requires i < |rows| && rows[i].time < SessionCutoff
    ensures Run(s, rows, i) == Run(StopPhase(EntryPhase(s, rows, i), rows, i), rows, i + 1)
  {
  }

  /** What a whole replay from row 0 guarantees: the invariant, for rows in time order from a
      consistent start, and a flat book ending in "Close All" once a cutoff row is reached. */
  lemma RunOutcome(s: Session, rows: seq<Row>)
    ensures Inv(s) && SortedByTime(rows) && CloseTimeNotAfter(s, rows, 0) ==> Inv(Run(s, rows, 0))
    ensures FirstCutoffRow(rows, 0).Some? ==>
              var r := Run(s, rows, 0);
              r.positionCount == 0 && (forall j | 0 <= j < |r.trades| :: !IsOpenLeg(r.trades[j]))
              && r.trades != [] && Last(r.trades).CloseAll?
  {
    if Inv(s) && SortedByTime(rows) && CloseTimeNotAfter(s, rows, 0) {
      RunKeepsInv(s, rows, 0);
    }
    if FirstCutoffRow(rows, 0).Some? {
      RunFlattensAtCutoff(s, rows, 0);
    }
  }
}
