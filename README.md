# Opening-range breakout backtester, modelled in Dafny

This project models the core of a day-trading backtester for Taiwan index futures (MTX), and
the pure helpers of the batch driver that feeds it one session file at a time.

**The backtester** (`TradingBacktester`) replays the rows of one session, each with a Time,
High, Low and Close.
- **Reference band.** `set_reference_points` sets the band H/L to the highest High and the
  lowest Low of the opening window, 08:45:00 to 09:04:59.
- **Entries.** During the replay, a Close at least 10 points above H tries a Buy, or one at
  least 10 points below L tries a Sell, while fewer than 4 lots are open.
- **Spacing.** A new lot needs a move of more than 30 points beyond the last fill.
- **Pyramid.** The first lot of a pyramid is its root. Later lots record the root's ID as
  their parent. Once the pyramid has been flattened, the next entry attempt on a row at or
  after the flatten's time clears the root, so the next lot starts a new pyramid.
- **Lots.** Each lot gets a target and a stop 30 points away.
- **Stops.** On every row with open lots, each open lot's stop moves to one point past its
  entry (breakeven) once the Close is more than 30 points in its favour. The first lot whose
  stop the Close reaches flattens the whole book.
- **Flatten.** Every open lot is closed at that row. One "Close All" record with the total is
  appended, and the band is re-anchored to the extremes of the session so far.
- **Cutoff.** A row at or after 13:40:00 flattens the book and ends the replay.

**The batch driver** (`AutoBacktest.py`):
- reads a session date out of a file name such as `Daily_2025_01_02.csv`;
- maps the date to a contract month through three date ranges;
- processes only the files that pass both steps.

## Layout

- `wrappers.dfy`: `Option` (Python's `None`, pandas' NaN for an empty column maximum) and
  `Result` (a value or a raised `ValueError`).
- `dates.dfy`: `datetime.date` validity and order. It also models `strptime` and `strftime`
  for `"%Y<sep>%m<sep>%d"`, with the `%Y`, `%m` and `%d` regular expressions of Python's
  `_strptime` and its "unconverted data remains" check. Both round trips are proved.
- `autobacktest.dfy`: `str.split`, `str.join` and `str.replace`, the two date helpers, the
  contract table and the file filter.
- `ledger.dfy`: the rows and the trade ledger (a `Leg` per lot, a `CloseAll` per flatten),
  its aggregates, and the close and ratchet operations on it.
- `band.dfy`: the column extremes and the opening window.
- `replay.dfy`: every backtester operation as a pure function over the fields (`Session`),
  plus the invariant `Inv` of those fields.
- `replay_properties.dfy`: the lemmas about those functions. They cover:
  - invariant preservation;
  - what each operation does to the ledger;
  - the cutoff;
  - a worked session.
- `backtester.dfy`: the `TradingBacktester` class. Its fields are updated in place by methods
  with the source's loops. Each method is proved to leave the fields exactly as the matching
  function of `replay.dfy` says.

## Model

| member | source | states |
|---|---|---|
| Backtester.TradingBacktester.constructor | TradingBacktester.py:5-21 | empty ledger, no band, no lots open, no last fill, no pyramid, P&L 0, ID counter 0; these fields satisfy the invariant |
| Backtester.TradingBacktester.SetReferencePoints | TradingBacktester.py:37-40 | H and L become the opening-window extremes (`OpeningHigh`/`OpeningLow`), nothing else changes, the invariant is kept |
| Backtester.TradingBacktester.UpdateReferencePoints | TradingBacktester.py:42-45 | H and L become the High maximum and Low minimum of rows `0..endIndex` (all rows when past the end), nothing else changes, the invariant is kept |
| Backtester.PrefixLength | TradingBacktester.py:43 | `iloc[:n]` keeps min(n, len) rows: at most n and at most len, and equal to one of them |
| Backtester.TradingBacktester.ExecuteTrade | TradingBacktester.py:64-99 | the new fields are `ExecuteTradeSpec` of the old ones: pyramid reset, spacing rule, fill condition, new leg with next ID, parent, target and stop; called with fewer than 4 lots and the root's close time not after the row, as the loop calls it, it keeps the invariant |
| Backtester.TradingBacktester.CheckStopLoss | TradingBacktester.py:101-116 | the loop ratchets the legs in ledger order and flattens at the first one stopped out; the new fields are `CheckStopSpec` of the old ones; the invariant is kept |
| Backtester.TradingBacktester.CloseAllPositions | TradingBacktester.py:118-148 | the loop closes every open leg at the row's Time and Close and sums their P&L; the new fields are `FlattenSpec` of the old ones; the invariant is kept |
| Backtester.TradingBacktester.Backtest | TradingBacktester.py:47-62 | the fields end as `Run` of the old ones from row 0; from consistent fields and rows in time order the invariant is kept; when some row reaches 13:40:00 the book is flat and the ledger ends in "Close All" |
| Backtester.TradingBacktester.GetResults | TradingBacktester.py:150-151 | returns the ledger; under the invariant its leg IDs are 1..counter in order, realised P&L and "Close All" totals both equal the day's P&L, and open legs equal the lot count, at most 4 |
| ReplayProperties.RunOutcome | TradingBacktester.py:47-62 | a replay from a consistent state over rows in time order keeps the invariant; a cutoff row leaves no open leg and a final "Close All" |
| ReferenceBand.OpeningRows | TradingBacktester.py:38 | exactly the rows inside 08:45:00..09:04:59 |
| ReferenceBand.MaxHigh | TradingBacktester.py:39 | None exactly for no rows; otherwise at least every High and equal to one of them |
| ReferenceBand.MinLow | TradingBacktester.py:40 | None exactly for no rows; otherwise at most every Low and equal to one of them |
| ReferenceBand.WindowExtremes | TradingBacktester.py:37-40 | the extremes of the filtered rows are the extremes over the session's rows that lie in the window |
| ReferenceBand.OpeningHigh | TradingBacktester.py:38-39 | H is None iff no row is in the window, bounds every High in it and is attained there |
| ReferenceBand.OpeningLow | TradingBacktester.py:38-40 | L is None iff no row is in the window, bounds every Low in it and is attained there |
| Replay.FirstCutoffRow | TradingBacktester.py:52-54 | the first row at or after the start whose time reaches 13:40:00, none earlier |
| Ledger.FirstStopHit | TradingBacktester.py:103-116 | the first entry stopped out after its ratchet; every earlier one is not; None when no entry is |
| Ledger.AppendAggregates | TradingBacktester.py:88-99 | appending one record changes open count, leg IDs, realised P&L, "Close All" total and open P&L by that record's share alone |
| Ledger.AgreeAggregates | TradingBacktester.py:108-111 | ledgers that differ only in stops have equal open count, IDs and P&L figures |
| Ledger.RatchetPrefixAgrees | TradingBacktester.py:108-111 | ratcheting changes stops and nothing else |
| Ledger.CloseOpenAggregates | TradingBacktester.py:122-130 | after closing every open leg none is open, IDs and "Close All" totals are unchanged, realised P&L grows by the open P&L at that price |
| Ledger.NoOpenLegsNoPnl | TradingBacktester.py:122-125 | with no open leg the flatten total is 0 |
| Ledger.ExtendsTransitive | TradingBacktester.py:101-148 | keeping every record in place composes |
| Ledger.ExtendsByLedgerChanges | TradingBacktester.py:88-142 | appending, closing open legs and ratcheting each keep every record in place |
| ReplayProperties.InitialInv | TradingBacktester.py:5-21 | the constructor's fields satisfy the invariant |
| ReplayProperties.ResetKeepsInv | TradingBacktester.py:69-71 | the pyramid reset keeps the invariant and the ledger |
| ReplayProperties.AppendOpenLegShape | TradingBacktester.py:79-99 | a new open leg, as root of an empty book or child of the open root, keeps open legs last and the pyramid shape |
| ReplayProperties.OpenLegKeepsInv | TradingBacktester.py:79-99 | opening a leg (unsuppressed, filled, fewer than 4 lots) keeps the invariant |
| ReplayProperties.ExecuteKeepsInv | TradingBacktester.py:64-99 | execute_trade with fewer than 4 lots and the root's close time not after the row keeps the invariant |
| ReplayProperties.FlattenKeepsInv | TradingBacktester.py:118-148 | close_all_positions keeps the invariant |
| ReplayProperties.RatchetPrefixWellFormed | TradingBacktester.py:108-111 | ratcheting keeps every record well formed and which records are open |
| ReplayProperties.AgreeKeepsShape | TradingBacktester.py:108-111 | ledgers differing only in stops share open-last order, pyramid shape and last fill |
| ReplayProperties.RatchetKeepsInv | TradingBacktester.py:108-111 | ratcheting any prefix keeps the invariant |
| ReplayProperties.CheckStopKeepsInv | TradingBacktester.py:101-116 | check_stop_loss keeps the invariant |
| ReplayProperties.StopOutKeepsInv | TradingBacktester.py:113-116 | the flatten after a partial ratchet keeps the invariant |
| ReplayProperties.EntryPhaseKeepsInv | TradingBacktester.py:56-59 | the entry decision keeps the invariant and the close-time ordering |
| ReplayProperties.StopPhaseKeepsInv | TradingBacktester.py:61-62 | the stop check keeps the invariant and the close-time ordering |
| ReplayProperties.ExecuteCloseTime | TradingBacktester.py:69-71 | execute_trade leaves the root's close time unset or unchanged |
| ReplayProperties.CheckStopCloseTime | TradingBacktester.py:113-116 | check_stop_loss leaves the root's close time unchanged or at the row's time |
| ReplayProperties.RowStepKeepsInv | TradingBacktester.py:48-62 | one pass of the loop keeps the invariant |
| ReplayProperties.RunKeepsInv | TradingBacktester.py:47-62 | the whole replay over rows in time order keeps the invariant |
| ReplayProperties.NewLegFields | TradingBacktester.py:64-99 | a leg that opens has the next ID, the row's Close and Time, target and stop 30 away, no parent iff no lot is open and otherwise the open root's ID; when none opens the ledger, counter, lot count and last fill are unchanged |
| ReplayProperties.SpacingSuppression | TradingBacktester.py:73-77 | a move of at most 30 points beyond the last fill changes nothing but the pyramid reset |
| ReplayProperties.FlattenFacts | TradingBacktester.py:118-142 | every leg closed; previously open legs get the row's Time, Close and signed P&L; others untouched; one "Close All" whose total is the realised P&L, also added to the day's P&L; 0 when nothing was open |
| ReplayProperties.FlattenBandFacts | TradingBacktester.py:143-148 | lot count and last fill reset, root close time set, IDs kept, H/L bound and attained by rows 0..index |
| ReplayProperties.StopOutFlattens | TradingBacktester.py:113-116 | if some ratcheted leg is stopped out, the book is flat and the ledger ends in that row's "Close All" |
| ReplayProperties.NoStopOutRatchets | TradingBacktester.py:101-112 | if no leg is stopped out, each entry is ratcheted and nothing else changes |
| ReplayProperties.StopScanFrame | TradingBacktester.py:101-116 | records stay in place, closed legs and "Close All" rows are untouched, legs after the stopped one keep their stops |
| ReplayProperties.RatchetTightens | TradingBacktester.py:108-111 | the breakeven move only tightens a stop, never past breakeven, and is idempotent |
| ReplayProperties.NewLegsBeforeTransitive | TradingBacktester.py:47-62 | "new legs opened before a time" composes along ledger growth |
| ReplayProperties.ExecuteGrowsLedger | TradingBacktester.py:79-99 | execute_trade keeps every record and adds at most a leg opened at the row's time |
| ReplayProperties.FlattenGrowsLedger | TradingBacktester.py:122-142 | close_all_positions keeps every record and opens no leg |
| ReplayProperties.CheckStopGrowsLedger | TradingBacktester.py:101-116 | check_stop_loss keeps every record and opens no leg |
| ReplayProperties.RowStepGrowsLedger | TradingBacktester.py:48-62 | a loop pass keeps every record and only opens legs before 13:40:00 |
| ReplayProperties.RunOpensLegsBeforeCutoff | TradingBacktester.py:47-62 | the replay keeps every record and opens no leg at or after 13:40:00 |
| ReplayProperties.RunFlattensAtCutoff | TradingBacktester.py:52-54 | the first cutoff row leaves no open leg, the lot count 0 and a last "Close All" at that row's Time and Close |
| ReplayProperties.RunAtCutoffRow | TradingBacktester.py:52-54 | from a cutoff row the replay is the flatten at that row |
| ReplayProperties.RunBeforeCutoffRow | TradingBacktester.py:56-62 | from an earlier row the replay is that row's entry and stop phases, then the rest |
| ReplayProperties.WorkedSession | TradingBacktester.py:47-148 | a three-row session: Buy root, pyramided Buy moving the root to breakeven, stop-out flattening both for -6 and -37, "Close All" -43 |
| ReplayProperties.WorkedRow0 | TradingBacktester.py:56-62 | the first row of the worked session opens the root |
| ReplayProperties.WorkedRow1 | TradingBacktester.py:56-62 | the second row opens the child and moves the root's stop |
| ReplayProperties.WorkedRow2 | TradingBacktester.py:56-62 | the third row stops the root out |
| ReplayProperties.WorkedFlatten | TradingBacktester.py:118-148 | the flatten of the worked session's third row |
| Dates.DaysInMonth | AutoBacktest.py:7 | 28 to 31 days; 29 exactly for February of a leap year |
| Dates.MonthField | AutoBacktest.py:7 | `%m` followed by the separator yields a month 1..12 |
| Dates.DayField | AutoBacktest.py:7 | `%d` consuming the rest of the text yields a day 1..31 |
| Dates.MatchFields | AutoBacktest.py:7 | the matched year, month and day are in range |
| Dates.ParseDate | AutoBacktest.py:23 | a parse yields a real calendar date from 8..10 characters |
| Dates.Render | AutoBacktest.py:23 | ten characters with the separators at positions 4 and 7 |
| Dates.RenderThenParse | AutoBacktest.py:23 | parsing a rendered date gives it back |
| Dates.ParseThenRender | AutoBacktest.py:23 | rendering a parsed ten-character, non-space-padded text gives the text back |
| Dates.ParsedDigits | AutoBacktest.py:23 | the digits of such a text spell the parsed date |
| Dates.RenderedAs | AutoBacktest.py:23 | the digit text of a date is its rendering |
| AutoBacktest.Split | AutoBacktest.py:21 | at least one piece, one exactly when the separator does not occur, and no piece contains the separator (with JoinSplit this pins down str.split) |
| AutoBacktest.JoinSplit | AutoBacktest.py:21-22 | joining the pieces of a split gives the text back |
| AutoBacktest.JoinTailOfSplit | AutoBacktest.py:21-22 | joining all pieces but the first gives the text after the first separator |
| AutoBacktest.AfterFirst | AutoBacktest.py:21-22 | the text after the first separator is shorter, or empty |
| AutoBacktest.AfterFirstOfPrefix | AutoBacktest.py:21-22 | with no separator in `prefix`, the text after the first separator of `prefix`, separator, `rest` is `rest` |
| AutoBacktest.RemoveAll | AutoBacktest.py:22 | `replace(pat, '')` never lengthens the text |
| AutoBacktest.RemoveTrailingCsv | AutoBacktest.py:22 | removing ".csv" from a dot-free stem plus ".csv" gives the stem |
| AutoBacktest.ExtractDateFromFilename | AutoBacktest.py:17-26 | a date text exactly when the name's date part parses; that text is the date in "%Y-%m-%d" and parses back to it |
| AutoBacktest.DailyFilenameRoundTrip | AutoBacktest.py:17-26 | `Daily_YYYY_MM_DD.csv` yields its own date as `YYYY-MM-DD` |
| AutoBacktest.AfterFirstAbsent | AutoBacktest.py:21-22 | with no separator in the text, nothing comes after a first separator |
| AutoBacktest.NoUnderscore | AutoBacktest.py:21-26 | every name without '_' yields no date (None) |
| AutoBacktest.NoUnderscoreExample | AutoBacktest.py:21-26 | "Daily.csv" yields None |
| AutoBacktest.ImpossibleDayExample | AutoBacktest.py:23-26 | `Daily_2025_02_30.csv` yields None (February 30 is a ValueError) |
| AutoBacktest.ContractFor | AutoBacktest.py:8-15 | each contract month exactly on its closed date range; at most one month |
| AutoBacktest.GetContractFromDate | AutoBacktest.py:5-15 | raises exactly on text that does not parse (including the unpadded forms strptime accepts); otherwise returns the parsed date's contract, one of the three months and only for a date in 2024-11-21..2025-02-19 |
| AutoBacktest.RenderedDateContract | AutoBacktest.py:5-15 | a date in "%Y-%m-%d" form never raises and gets its date's contract |
| AutoBacktest.ContractExamples | AutoBacktest.py:8-15 | the ranges at their edges, and no contract for 2024-12-19, 2024-11-20 or 2025-02-20 |
| AutoBacktest.MalformedDateText | AutoBacktest.py:7 | "2024/12/01" and "" raise ValueError |
| AutoBacktest.SelectFile | AutoBacktest.py:58-68 | a file is processed exactly when its name starts "Daily_", ends ".csv", yields a date and that date has a contract; with that date text and contract |
| AutoBacktest.DailyFileSelected | AutoBacktest.py:58-68 | the daily file of a date in a range is processed under its contract |
| AutoBacktest.DailyFileSkipped | AutoBacktest.py:58-68 | the daily file of a date without a contract is read but skipped |

## Left out

- `load_data` (CSV reading, encoding fallback, column renaming), the driver's directory walk,
  subprocess calls, output paths and every `print` are I/O. The model takes the session's rows
  as a sequence that is already loaded.
- The `balance` field (TradingBacktester.py:11) is set but never read by the core, so it is
  not modelled.
- Times are seconds of the day. The fixed-width "HH:MM:SS" texts compare in the same order as
  those numbers. Prices are whole index points; the model uses no floating point.
- `Backtester.TradingBacktester.SetReferencePoints`: H/L `None` stands both for pandas' NaN
  (an empty window) and for "never set". NaN makes every entry comparison false, and the model
  does the same. The source would instead raise `TypeError` if `backtest` ran before
  `set_reference_points`; that error is not modelled.
- `Backtester.TradingBacktester.CheckStopLoss`: the `break` after a flatten ends the method
  with `return`, which has the same effect because nothing follows the loop.
- `Backtester.TradingBacktester.ExecuteTrade`: the two early `return`s of the spacing rule
  become a `suppressed` flag that skips the fill. The effect is the same, because the fill is
  the only thing after them.
- Rows whose times are not in order are replayed as written. The invariant lemmas require
  `SortedByTime`, because the pyramid reset compares a row's time with the root's close time.
- `Dates.ParseThenRender`: `strptime` also accepts a one-digit month or day, and a day padded
  with a space (`"2025_01_ 2"`). Such texts do not render back to themselves, so the lemma is
  stated for ten-character texts whose day is not space-padded.
- `Dates.ParseDate`: only ASCII digits are modelled. Python's `\d` also matches other Unicode
  decimal digits.
- `Dates.Render`: it is used only on years 1..9999 and always writes four digits. Some
  platforms' `strftime` writes years below 1000 without zero padding.
