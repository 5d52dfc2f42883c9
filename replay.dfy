/** The session replay of TradingBacktester as pure functions over the backtester's fields:
    the entry decision, the breakeven/stop check, the flatten, one row of the replay loop and
    the whole loop. The class in backtester.dfy is proved to compute exactly these. */
module Replay {
  import opened Wrappers
  import opened Ledger
  import opened ReferenceBand

  /** The constant settings of the backtester. */
  const EntryBuffer: int := 10
  const StopLossPoints: int := 30
  const MaxPositions: nat := 4
  const SafetyDistance: int := 30
  /** Rows at or after "13:40:00" end the session. */
  const SessionCutoff: nat := Clock(13, 40, 0)

  /** The mutable fields of the backtester: the ledger, the band H/L, the open-lot count, the
      last fill, the pyramid root and its close time, the realised P&L and the ID counter. */
  datatype Session = Session(
    trades: seq<Entry>,
    h: Option<int>,
    l: Option<int>,
    positionCount: nat,
    lastEntryPrice: Option<int>,
    dailyProfitLoss: int,
    parentTradeId: Option<nat>,
    parentCloseTime: Option<nat>,
    tradeIdCounter: nat)

  /** The fields as the constructor leaves them. */
  const Initial: Session := Session([], None, None, 0, None, 0, None, None, 0)

  function InitialStop(side: Side, entry: int): int {
    if side == Buy then entry - StopLossPoints else entry + StopLossPoints
  }

  function TakeProfit(side: Side, entry: int): int {
    if side == Buy then entry + StopLossPoints else entry - StopLossPoints
  }

  /** A ledger record as the backtester writes it: a positive ID, a parent opened earlier, the
      target and a stop that is either the initial one or the breakeven one, close fields set
      together, and the P&L of a closed leg equal to its signed price move. */
  predicate WellFormedEntry(e: Entry) {
    e.Leg? ==>
      && e.id >= 1
      && (e.parent.Some? ==> e.parent.value < e.id)
      && e.takeProfit == TakeProfit(e.side, e.entryPrice)
      && (e.stopLoss == InitialStop(e.side, e.entryPrice) || e.stopLoss == BreakevenStop(e.side, e.entryPrice))
      && (e.closeTime.None? <==> e.closePrice.None?)
      && (e.closeTime.None? <==> e.pnl.None?)
      && (e.closePrice.Some? && e.pnl.Some? ==> e.pnl.value == Signed(e.side, e.entryPrice, e.closePrice.value))
  }

  /** Open legs come after every other record. */
  predicate OpenSuffix(s: seq<Entry>) {
    forall i, j | 0 <= i < j < |s| :: IsOpenLeg(s[i]) ==> IsOpenLeg(s[j])
  }

  /** The open legs form one pyramid: the root with ID `root` and no parent, and legs whose
      parent is the root. */
  predicate GroupRootedAt(s: seq<Entry>, root: nat) {
    && (forall j | 0 <= j < |s| && IsOpenLeg(s[j]) ::
          (s[j].parent.None? <==> s[j].id == root) && (s[j].parent.Some? ==> s[j].parent.value == root))
    && (exists j | 0 <= j < |s| :: IsOpenLeg(s[j]) && s[j].id == root)
  }

  /** The invariant of the backtester's fields. */
  ghost predicate Inv(s: Session) {
    && LegIds(s.trades) == Upto(s.tradeIdCounter)
    && s.positionCount == OpenCount(s.trades)
    && s.positionCount <= MaxPositions
    && OpenSuffix(s.trades)
    && (forall j | 0 <= j < |s.trades| :: WellFormedEntry(s.trades[j]))
    && s.dailyProfitLoss == ClosedPnl(s.trades)
    && s.dailyProfitLoss == MarkerPnl(s.trades)
    && (s.lastEntryPrice.None? <==> s.positionCount == 0)
    && (s.lastEntryPrice.Some? ==>
          s.trades != [] && IsOpenLeg(Last(s.trades)) && Last(s.trades).entryPrice == s.lastEntryPrice.value)
    && (s.positionCount > 0 <==> s.parentTradeId.Some? && s.parentCloseTime.None?)
    && (s.parentTradeId.Some? ==> 1 <= s.parentTradeId.value <= s.tradeIdCounter)
    && (s.positionCount > 0 ==> GroupRootedAt(s.trades, s.parentTradeId.value))
  }

  /** The pyramid reset of execute_trade: once the row is at or after the root's close time,
      the parent ID and close time are cleared. */
  function ResetGroup(s: Session, time: nat): Session {
    if s.parentCloseTime.Some? && time >= s.parentCloseTime.value then
      s.(parentTradeId := None, parentCloseTime := None)
    else s
  }

  /** The spacing rule: with a last fill, a Buy needs a rise of more than SafetyDistance over
      it and a Sell a fall of more than SafetyDistance. */
  predicate Suppressed(last: Option<int>, side: Side, price: int) {
    last.Some? && ((side == Buy && price - last.value <= SafetyDistance)
                   || (side == Sell && last.value - price <= SafetyDistance))
  }

  /** execute_trade(index, side, entryPrice). */
  function ExecuteTradeSpec(s: Session, rows: seq<Row>, index: nat, side: Side, entryPrice: int): Session
    requires index < |rows|
  {
    var actual := rows[index].close;
    var s1 := ResetGroup(s, rows[index].time);
    if Suppressed(s1.lastEntryPrice, side, actual) then s1
    else if (side == Buy && actual >= entryPrice) || (side == Sell && actual <= entryPrice) then
      var id := s1.tradeIdCounter + 1;
      var isParent := s1.parentTradeId.None?;
      var leg := Leg(id, if isParent then None else s1.parentTradeId, rows[index].time, side, actual,
                     None, None, None, TakeProfit(side, actual), InitialStop(side, actual));
      s1.(tradeIdCounter := id,
          parentTradeId := if isParent then Some(id) else s1.parentTradeId,
          positionCount := s1.positionCount + 1,
          lastEntryPrice := Some(actual),
          trades := s1.trades + [leg])
    else s1
  }

  /** close_all_positions(index): every open leg is closed at the row's Close and Time, one
      "Close All" row with the total is appended, the band is re-anchored to rows 0..index. */
  function FlattenSpec(s: Session, rows: seq<Row>, index: nat): Session
    requires index < |rows|
  {
    var t := rows[index].time;
    var p := rows[index].close;
    var total := OpenPnl(s.trades, p);
    s.(trades := CloseOpen(s.trades, t, p) + [CloseAll(t, p, total)],
       dailyProfitLoss := s.dailyProfitLoss + total,
       positionCount := 0,
       parentCloseTime := Some(t),
       h := MaxHigh(rows[..index + 1]),
       l := MinLow(rows[..index + 1]),
       lastEntryPrice := None)
  }

  /** check_stop_loss(index): the legs are ratcheted in ledger order until one is stopped out,
      which flattens everything. */
  function CheckStopSpec(s: Session, rows: seq<Row>, index: nat): Session
    requires index < |rows|
  {
    var p := rows[index].close;
    match FirstStopHit(s.trades, p, SafetyDistance)
    case None => s.(trades := RatchetPrefix(s.trades, |s.trades|, p, SafetyDistance))
    case Some(k) => FlattenSpec(s.(trades := RatchetPrefix(s.trades, k + 1, p, SafetyDistance)), rows, index)
  }

  predicate BuySignal(s: Session, price: int) {
    s.h.Some? && price >= s.h.value + EntryBuffer && s.positionCount < MaxPositions
  }

  predicate SellSignal(s: Session, price: int) {
    s.l.Some? && price <= s.l.value - EntryBuffer && s.positionCount < MaxPositions
  }

  /** The entry decision of the backtest loop at row i: a Close at least EntryBuffer above H
      tries a Buy, else one at least EntryBuffer below L tries a Sell, while fewer than
      MaxPositions lots are open. */
  function EntryPhase(s: Session, rows: seq<Row>, i: nat): Session
    requires i < |rows|
  {
    var p := rows[i].close;
    if BuySignal(s, p) then ExecuteTradeSpec(s, rows, i, Buy, s.h.value + EntryBuffer)
    else if SellSignal(s, p) then ExecuteTradeSpec(s, rows, i, Sell, s.l.value - EntryBuffer)
    else s
  }

  /** The stop check of the backtest loop at row i, made only while lots are open. */
  function StopPhase(s: Session, rows: seq<Row>, i: nat): Session
    requires i < |rows|
  {
    if s.positionCount > 0 then CheckStopSpec(s, rows, i) else s
  }

  /** One pass of the backtest loop over row i: the new fields, and whether the loop ends. */
  function RowStep(s: Session, rows: seq<Row>, i: nat): (Session, bool)
    requires i < |rows|
  {
    if rows[i].time >= SessionCutoff then (FlattenSpec(s, rows, i), true)
    else (StopPhase(EntryPhase(s, rows, i), rows, i), false)
  }

  /** The backtest loop from row i on. */
  function Run(s: Session, rows: seq<Row>, i: nat): Session
    decreases |rows| - i
  {
    if i >= |rows| then s
    else
      var (next, stop) := RowStep(s, rows, i);
      if stop then next else Run(next, rows, i + 1)
  }

  /** The first row at or after i whose time reaches the cutoff. */
  function FirstCutoffRow(rows: seq<Row>, i: nat): (c: Option<nat>)
    ensures c.Some? ==> i <= c.value < |rows| && rows[c.value].time >= SessionCutoff
    ensures c.Some? ==> forall k | i <= k < c.value :: rows[k].time < SessionCutoff
    ensures c.None? ==> forall k | i <= k < |rows| :: rows[k].time < SessionCutoff
    decreases |rows| - i
  {
    if i >= |rows| then None
    else if rows[i].time >= SessionCutoff then Some(i)
    else FirstCutoffRow(rows, i + 1)
  }

  ghost predicate SortedByTime(rows: seq<Row>) {
    forall j, k | 0 <= j <= k < |rows| :: rows[j].time <= rows[k].time
  }

  /** The root's close time is not after row i, as holds when rows are replayed in time order. */
  ghost predicate CloseTimeNotAfter(s: Session, rows: seq<Row>, i: nat) {
    s.parentCloseTime.Some? && i < |rows| ==> s.parentCloseTime.value <= rows[i].time
  }
}
