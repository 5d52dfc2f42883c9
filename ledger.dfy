/** The price rows a session replays and the trade ledger the backtester keeps: one record
    per position leg, plus a "Close All" record for every flatten. */
module Ledger {
  import opened Wrappers

  /** Clock time of day in seconds. Fixed-width "HH:MM:SS" texts compare in the same order as
      these numbers, so the source's text comparisons become comparisons of naturals. */
  function Clock(h: nat, m: nat, s: nat): nat {
    3600 * h + 60 * m + s
  }

  /** One row of the filtered session data: Time, High, Low and Close (whole index points). */
  datatype Row = Row(time: nat, high: int, low: int, close: int)

  datatype Side = Buy | Sell

  /** A ledger record. A Leg is one lot; its close fields are None while it is open.
      CloseAll is the synthetic row a flatten appends, carrying the flatten's total P&L. */
  datatype Entry =
    | Leg(id: nat, parent: Option<nat>, entryTime: nat, side: Side, entryPrice: int,
          closeTime: Option<nat>, closePrice: Option<int>, pnl: Option<int>,
          takeProfit: int, stopLoss: int)
    | CloseAll(time: nat, price: int, total: int)

  /** A leg whose Close Time is still None. */
  predicate IsOpenLeg(e: Entry) {
    e.Leg? && e.closeTime.None?
  }

  /** Realised P&L of one lot closed at `close`: positive when the price moved the leg's way. */
  function Signed(side: Side, entry: int, close: int): int {
    (close - entry) * (if side == Buy then 1 else -1)
  }

  function Last(s: seq<Entry>): Entry
    requires s != []
  {
    s[|s| - 1]
  }

  /** The number of open legs. */
  function OpenCount(s: seq<Entry>): nat {
    if s == [] then 0
    else OpenCount(s[..|s| - 1]) + (if IsOpenLeg(Last(s)) then 1 else 0)
  }

  /** The Trade IDs of the legs, in ledger order. */
  function LegIds(s: seq<Entry>): seq<nat> {
    if s == [] then []
    else LegIds(s[..|s| - 1]) + (if Last(s).Leg? then [Last(s).id] else [])
  }

  /** The sequence 1, 2, ..., n. */
  function Upto(n: nat): (r: seq<nat>)
    ensures |r| == n
  {
    if n == 0 then [] else Upto(n - 1) + [n]
  }

  function PnlOf(e: Entry): int
    requires e.Leg?
  {
    if e.pnl.Some? then e.pnl.value else 0
  }

  /** The realised P&L of the closed legs. */
  function ClosedPnl(s: seq<Entry>): int {
    if s == [] then 0
    else ClosedPnl(s[..|s| - 1]) + (if Last(s).Leg? && Last(s).closeTime.Some? then PnlOf(Last(s)) else 0)
  }

  /** The total of the "Close All" rows. */
  function MarkerPnl(s: seq<Entry>): int {
    if s == [] then 0
    else MarkerPnl(s[..|s| - 1]) + (if Last(s).CloseAll? then Last(s).total else 0)
  }

  /** What the open legs would realise if closed at `price`. */
  function OpenPnl(s: seq<Entry>, price: int): int {
    if s == [] then 0
    else OpenPnl(s[..|s| - 1], price)
         + (if IsOpenLeg(Last(s)) then Signed(Last(s).side, Last(s).entryPrice, price) else 0)
  }

  /** Closing one entry at (t, p): an open leg gets its Close Time, Close Price and P&L;
      anything else is left as it is. */
  function CloseLeg(e: Entry, t: nat, p: int): Entry {
    if IsOpenLeg(e) then e.(closeTime := Some(t), closePrice := Some(p), pnl := Some(Signed(e.side, e.entryPrice, p)))
    else e
  }

  /** The ledger after every open leg is closed at (t, p). */
  function CloseOpen(s: seq<Entry>, t: nat, p: int): (r: seq<Entry>)
    ensures |r| == |s|
  {
    seq(|s|, j requires 0 <= j < |s| => CloseLeg(s[j], t, p))
  }

  /** The ledger with its first n entries closed at (t, p). */
  function ClosePrefix(s: seq<Entry>, n: nat, t: nat, p: int): (r: seq<Entry>)
    ensures |r| == |s|
  {
    seq(|s|, j requires 0 <= j < |s| => if j < n then CloseLeg(s[j], t, p) else s[j])
  }

  /** The breakeven stop: one point past the entry, on the leg's side. */
  function BreakevenStop(side: Side, entry: int): int {
    if side == Buy then entry + 1 else entry - 1
  }

  /** The breakeven ratchet: an open leg whose price has moved more than `safety` points its
      way gets its stop moved to BreakevenStop; everything else is left as it is. */
  function Ratchet(e: Entry, price: int, safety: int): Entry {
    if IsOpenLeg(e) && e.side == Buy && price - e.entryPrice > safety then e.(stopLoss := e.entryPrice + 1)
    else if IsOpenLeg(e) && e.side == Sell && e.entryPrice - price > safety then e.(stopLoss := e.entryPrice - 1)
    else e
  }

  /** An open leg whose stop the price has reached: at or below it for Buy, at or above for Sell. */
  predicate StopHit(e: Entry, price: int) {
    IsOpenLeg(e) && ((e.side == Buy && price <= e.stopLoss) || (e.side == Sell && price >= e.stopLoss))
  }

  /** The first entry that, once ratcheted, is stopped out at `price`. */
  function FirstStopHit(s: seq<Entry>, price: int, safety: int): (k: Option<nat>)
    ensures k.Some? ==> k.value < |s| && StopHit(Ratchet(s[k.value], price, safety), price)
    ensures k.Some? ==> forall j | 0 <= j < k.value :: !StopHit(Ratchet(s[j], price, safety), price)
    ensures k.None? ==> forall j | 0 <= j < |s| :: !StopHit(Ratchet(s[j], price, safety), price)
  {
    if s == [] then None
    else if StopHit(Ratchet(s[0], price, safety), price) then Some(0)
    else
      match FirstStopHit(s[1..], price, safety)
      case None => None
      case Some(k) => Some(k + 1)
  }

  /** The ledger with its first n entries ratcheted. */
  function RatchetPrefix(s: seq<Entry>, n: nat, price: int, safety: int): (r: seq<Entry>)
    ensures |r| == |s|
  {
    seq(|s|, j requires 0 <= j < |s| => if j < n then Ratchet(s[j], price, safety) else s[j])
  }

  /** Two entries that differ at most in a leg's stop. */
  predicate SameButStop(a: Entry, b: Entry) {
    a == b || (a.Leg? && b.Leg? && a.(stopLoss := b.stopLoss) == b)
  }

  /** Two ledgers that differ at most in the legs' stops. */
  predicate AgreeButStops(s: seq<Entry>, t: seq<Entry>) {
    |s| == |t| && forall j | 0 <= j < |s| :: SameButStop(s[j], t[j])
  }

  /** An entry that later became `b`: the same record, or an open leg that kept its identity,
      entry and target (only its stop and its close fields may have changed). */
  predicate Evolves(a: Entry, b: Entry) {
    || a == b
    || (&& IsOpenLeg(a) && b.Leg? && b.id == a.id && b.parent == a.parent && b.entryTime == a.entryTime
        && b.side == a.side && b.entryPrice == a.entryPrice && b.takeProfit == a.takeProfit)
  }

  /** `t` keeps every record of `s` at its place, possibly followed by new ones; closed legs and
      "Close All" rows of `s` are left untouched. */
  predicate Extends(s: seq<Entry>, t: seq<Entry>) {
    |s| <= |t| && forall j | 0 <= j < |s| :: Evolves(s[j], t[j])
  }

  lemma PrefixOfAppend(s: seq<Entry>, e: Entry)
    ensures (s + [e])[..|s|] == s && Last(s + [e]) == e
  {
  }

  /** What appending one record does to the ledger's aggregates. */
  lemma AppendAggregates(s: seq<Entry>, e: Entry, p: int)
    ensures OpenCount(s + [e]) == OpenCount(s) + (if IsOpenLeg(e) then 1 else 0)
    ensures LegIds(s + [e]) == LegIds(s) + (if e.Leg? then [e.id] else [])
    ensures ClosedPnl(s + [e]) == ClosedPnl(s) + (if e.Leg? && e.closeTime.Some? then PnlOf(e) else 0)
    ensures MarkerPnl(s + [e]) == MarkerPnl(s) + (if e.CloseAll? then e.total else 0)
    ensures OpenPnl(s + [e], p) == OpenPnl(s, p) + (if IsOpenLeg(e) then Signed(e.side, e.entryPrice, p) else 0)
  {
    PrefixOfAppend(s, e);
  }

  /** Ledgers that differ only in stops have the same open legs, IDs and P&L figures. */
  lemma {:induction false} AgreeAggregates(s: seq<Entry>, t: seq<Entry>, p: int)
    requires AgreeButStops(s, t)
    ensures OpenCount(s) == OpenCount(t) && LegIds(s) == LegIds(t)
    ensures ClosedPnl(s) == ClosedPnl(t) && MarkerPnl(s) == MarkerPnl(t) && OpenPnl(s, p) == OpenPnl(t, p)
  {
    if s != [] {
      var n := |s| - 1;
      assert AgreeButStops(s[..n], t[..n]);
      AgreeAggregates(s[..n], t[..n], p);
      assert SameButStop(s[n], t[n]);
    }
  }

  /** Ratcheting changes stops and nothing else. */
  lemma RatchetPrefixAgrees(s: seq<Entry>, n: nat, price: int, safety: int)
    ensures AgreeButStops(s, RatchetPrefix(s, n, price, safety))
  {
  }

  /** Closing all open legs at (t, p): none stays open, the IDs and the "Close All" rows are
      unchanged, and the realised P&L grows by exactly what the open legs make at p. */
  lemma {:induction false} CloseOpenAggregates(s: seq<Entry>, t: nat, p: int)
    ensures OpenCount(CloseOpen(s, t, p)) == 0
    ensures LegIds(CloseOpen(s, t, p)) == LegIds(s)
    ensures MarkerPnl(CloseOpen(s, t, p)) == MarkerPnl(s)
    ensures ClosedPnl(CloseOpen(s, t, p)) == ClosedPnl(s) + OpenPnl(s, p)
  {
    if s != [] {
      var n := |s| - 1;
      assert CloseOpen(s, t, p)[..n] == CloseOpen(s[..n], t, p);
      CloseOpenAggregates(s[..n], t, p);
    }
  }

  /** With no open leg there is nothing to realise. */
  lemma {:induction false} NoOpenLegsNoPnl(s: seq<Entry>, p: int)
    requires OpenCount(s) == 0
    ensures OpenPnl(s, p) == 0
    ensures forall j | 0 <= j < |s| :: !IsOpenLeg(s[j])
  {
    if s != [] {
      var n := |s| - 1;
      NoOpenLegsNoPnl(s[..n], p);
      assert forall j | 0 <= j < n :: s[j] == s[..n][j];
    }
  }

  lemma ExtendsTransitive(s: seq<Entry>, t: seq<Entry>, u: seq<Entry>)
    requires Extends(s, t) && Extends(t, u)
    ensures Extends(s, u)
  {
  }

  lemma ExtendsByLedgerChanges(s: seq<Entry>, n: nat, t: nat, p: int, safety: int, e: Entry)
    ensures Extends(s, s)
    ensures Extends(s, s + [e])
    ensures Extends(s, CloseOpen(s, t, p))
    ensures Extends(s, RatchetPrefix(s, n, p, safety))
  {
  }
}
