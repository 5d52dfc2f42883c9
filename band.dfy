/** The reference band H/L: the highest High and lowest Low of the opening window, and after a
    flatten the highest High and lowest Low of the session so far. */
module ReferenceBand {
  import opened Wrappers
  import opened Ledger

  /** The opening window, "08:45:00" to "09:04:59", both ends included. */
  const OpeningStart: nat := Clock(8, 45, 0)
  const OpeningEnd: nat := Clock(9, 4, 59)

  predicate InOpeningWindow(r: Row) {
    OpeningStart <= r.time <= OpeningEnd
  }

  /** The rows of the opening window, in order. */
  function OpeningRows(rows: seq<Row>): (w: seq<Row>)
    ensures forall r :: r in w <==> r in rows && InOpeningWindow(r)
  {
    if rows == [] then []
    else if InOpeningWindow(rows[0]) then [rows[0]] + OpeningRows(rows[1..])
    else OpeningRows(rows[1..])
  }

  /** The column maximum of High; None (pandas' NaN) for no rows. */
  function MaxHigh(rows: seq<Row>): (h: Option<int>)
    ensures h.None? <==> rows == []
    ensures h.Some? ==> forall k | 0 <= k < |rows| :: rows[k].high <= h.value
    ensures h.Some? ==> exists k | 0 <= k < |rows| :: rows[k].high == h.value
  {
    if rows == [] then None
    else
      var rest := MaxHigh(rows[..|rows| - 1]);
      var last := rows[|rows| - 1].high;
      if rest.None? || rest.value < last then Some(last) else rest
  }

  /** The column minimum of Low; None (pandas' NaN) for no rows. */
  function MinLow(rows: seq<Row>): (l: Option<int>)
    ensures l.None? <==> rows == []
    ensures l.Some? ==> forall k | 0 <= k < |rows| :: l.value <= rows[k].low
    ensures l.Some? ==> exists k | 0 <= k < |rows| :: rows[k].low == l.value
  {
    if rows == [] then None
    else
      var rest := MinLow(rows[..|rows| - 1]);
      var last := rows[|rows| - 1].low;
      if rest.None? || last < rest.value then Some(last) else rest
  }

  /** The extremes of the opening-window rows are the extremes over the rows of the session
      that fall in the window. */
  lemma WindowExtremes(rows: seq<Row>)
    ensures var h := MaxHigh(OpeningRows(rows));
      && (h.None? <==> forall k | 0 <= k < |rows| :: !InOpeningWindow(rows[k]))
      && (h.Some? ==> forall k | 0 <= k < |rows| && InOpeningWindow(rows[k]) :: rows[k].high <= h.value)
      && (h.Some? ==> exists k | 0 <= k < |rows| :: InOpeningWindow(rows[k]) && rows[k].high == h.value)
    ensures var l := MinLow(OpeningRows(rows));
      && (l.None? <==> forall k | 0 <= k < |rows| :: !InOpeningWindow(rows[k]))
      && (l.Some? ==> forall k | 0 <= k < |rows| && InOpeningWindow(rows[k]) :: l.value <= rows[k].low)
      && (l.Some? ==> exists k | 0 <= k < |rows| :: InOpeningWindow(rows[k]) && rows[k].low == l.value)
  {
    var w := OpeningRows(rows);
    forall k | 0 <= k < |rows| && InOpeningWindow(rows[k]) ensures rows[k] in w {
    }
    if w != [] {
      var h := MaxHigh(w).value;
      var i :| 0 <= i < |w| && w[i].high == h;
      assert w[i] in rows;
      var l := MinLow(w).value;
      var j :| 0 <= j < |w| && w[j].low == l;
      assert w[j] in rows;
    }
  }

  /** H as set_reference_points computes it: the highest High of the opening window. */
  function OpeningHigh(rows: seq<Row>): (h: Option<int>)
    ensures h.None? <==> forall k | 0 <= k < |rows| :: !InOpeningWindow(rows[k])
    ensures h.Some? ==> forall k | 0 <= k < |rows| && InOpeningWindow(rows[k]) :: rows[k].high <= h.value
    ensures h.Some? ==> exists k | 0 <= k < |rows| :: InOpeningWindow(rows[k]) && rows[k].high == h.value
  {
    WindowExtremes(rows);
    MaxHigh(OpeningRows(rows))
  }

  /** L as set_reference_points computes it: the lowest Low of the opening window. */
  function OpeningLow(rows: seq<Row>): (l: Option<int>)
    ensures l.None? <==> forall k | 0 <= k < |rows| :: !InOpeningWindow(rows[k])
    ensures l.Some? ==> forall k | 0 <= k < |rows| && InOpeningWindow(rows[k]) :: l.value <= rows[k].low
    ensures l.Some? ==> exists k | 0 <= k < |rows| :: InOpeningWindow(rows[k]) && rows[k].low == l.value
  {
    WindowExtremes(rows);
    MinLow(OpeningRows(rows))
  }
}
