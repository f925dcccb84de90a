/**
 * The rate averager of ctplot/plot.py (`average_computed` inside `_get_data`): a window
 * [ta, tb) of width `window` slides over a time-ordered table; the rows that fall into it are
 * buffered, and when a row reaches the right edge the buffer is averaged into one record
 * carrying the column means, the number of rows, the mean weight and the rate. The window then
 * moves on by `shift * window` (or jumps to the triggering row), and the buffer is cleared
 * (`shift == 1`) or pruned to the new window.
 */
module Averager {
  import opened Seqs
  import opened Outcomes

  /** One table row: its column values (in column order) and the value of the weight
    * expression evaluated on it. */
  datatype Row = Row(values: seq<real>, weight: real)

  /** One averaged row of the cache table: the table's columns, then count, weight and rate. */
  datatype Record = Record(values: seq<real>, count: nat, weight: real, rate: real)

  datatype AverageError =
    | BadShift       // the assertion 0 < shift <= 1 fails
    | NoTimeColumn   // colnames.index('time') raises
    | EmptyTable     // table[0] raises

  /** Python's `names.index(name)`: the first position of `name`, if any. */
  function IndexOf(names: seq<string>, name: string): (r: Option<nat>)
    ensures r.Some? ==> r.value < |names| && names[r.value] == name
    ensures r.Some? ==> forall j :: 0 <= j < r.value ==> names[j] != name
    ensures r.None? <==> name !in names
  {
    if |names| == 0 then None
    else if names[0] == name then Some(0)
    else
      match IndexOf(names[1..], name)
      case None => None
      case Some(k) => Some(k + 1)
  }

  /** Every row has one value per column. */
  predicate Rectangular(rows: seq<Row>, width: nat)
  {
    forall j :: 0 <= j < |rows| ==> |rows[j].values| == width
  }

  /** The value in column k of a row (0.0 outside the row, which rectangular tables never use). */
  function ValueOf(r: Row, k: nat): real
  {
    if k < |r.values| then r.values[k] else 0.0
  }

  /** Rows in ascending time order. */
  predicate TimeOrdered(rows: seq<Row>, it: nat)
  {
    forall j, k :: 0 <= j <= k < |rows| ==> ValueOf(rows[j], it) <= ValueOf(rows[k], it)
  }

  /** Membership in the window [ta, tb). */
  function InWindow(it: nat, ta: real, tb: real): Row -> bool
  {
    (r: Row) => ta <= ValueOf(r, it) < tb
  }

  /** The values of column k across the buffer. */
  function ColumnOf(buffer: seq<Row>, k: nat): (r: seq<real>)
    ensures |r| == |buffer|
    ensures forall j :: 0 <= j < |r| ==> r[j] == ValueOf(buffer[j], k)
  {
    seq(|buffer|, j requires 0 <= j < |buffer| => ValueOf(buffer[j], k))
  }

  /** The weights across the buffer. */
  function WeightsOf(buffer: seq<Row>): (r: seq<real>)
    ensures |r| == |buffer|
    ensures forall j :: 0 <= j < |r| ==> r[j] == buffer[j].weight
  {
    seq(|buffer|, j requires 0 <= j < |buffer| => buffer[j].weight)
  }

  /**
   * The record a non-empty buffer is averaged into: every column is the column mean, except the
   * time column, which becomes the window's midpoint (ta + tb) / 2; then the number of rows, the
   * mean weight and the rate (rows per unit of window).
   */
  function MakeRecord(buffer: seq<Row>, it: nat, width: nat, ta: real, window: real): Record
    requires |buffer| > 0 && window != 0.0
  {
    var n := |buffer| as real;
    Record(Means(buffer, it, (ta + (ta + window)) * 0.5, width), |buffer|, Sum(WeightsOf(buffer)) / n, n / window)
  }

  /** The first k values of a record: column means, with `mid` in the time column. */
  function Means(buffer: seq<Row>, it: nat, mid: real, k: nat): (r: seq<real>)
    requires |buffer| > 0
    ensures |r| == k
  {
    if k == 0 then []
    else Means(buffer, it, mid, k - 1) + [if k - 1 == it then mid else Sum(ColumnOf(buffer, k - 1)) / |buffer| as real]
  }

  lemma {:induction false} MeansAt(buffer: seq<Row>, it: nat, mid: real, k: nat, j: nat)
    requires |buffer| > 0 && j < k
    ensures Means(buffer, it, mid, k)[j] == if j == it then mid else Sum(ColumnOf(buffer, j)) / |buffer| as real
  {
    if j < k - 1 {
      MeansAt(buffer, it, mid, k - 1, j);
    }
  }

  /** What a record states about its buffer: the count is the number of rows, the rate times the
    * window gives the count back, the mean weight times the count gives the total weight back,
    * and the time is the middle of the window. */
  lemma {:induction false} MakeRecordTotals(buffer: seq<Row>, it: nat, width: nat, ta: real, window: real)
    requires |buffer| > 0 && window != 0.0
    ensures var rec := MakeRecord(buffer, it, width, ta, window);
      && rec.count == |buffer| >= 1
      && |rec.values| == width
      && rec.rate * window == rec.count as real
      && rec.weight * rec.count as real == Sum(WeightsOf(buffer))
      && (it < width ==> rec.values[it] == ta + window / 2.0)
  {
    var rec := MakeRecord(buffer, it, width, ta, window);
    var n := |buffer| as real;
    var total := Sum(WeightsOf(buffer));
    assert rec.count == |buffer| && rec.weight == total / n && rec.rate == n / window;
    QuotientTimesCount(total, n);
    QuotientTimesCount(n, window);
    if it < width {
      MeansAt(buffer, it, (ta + (ta + window)) * 0.5, width, it);
    }
  }

  /** Every other column of a record is the column mean: times the count it gives the column
    * total back. */
  lemma {:induction false} MakeRecordColumn(buffer: seq<Row>, it: nat, width: nat, ta: real, window: real, k: nat)
    requires |buffer| > 0 && window != 0.0 && k < width && k != it
    ensures var rec := MakeRecord(buffer, it, width, ta, window);
      rec.values[k] * rec.count as real == Sum(ColumnOf(buffer, k))
  {
    var total := Sum(ColumnOf(buffer, k));
    MeansAt(buffer, it, (ta + (ta + window)) * 0.5, width, k);
    QuotientTimesCount(total, |buffer| as real);
  }

  /** The window moves forward, by at most its width, and by exactly its width when shift is 1. */
  lemma {:induction false} PositiveStep(shift: real, window: real, step: real)
    requires 0.0 < shift <= 1.0 && step == shift * window
    ensures window > 0.0 ==> 0.0 < step <= window
    ensures shift == 1.0 ==> step == window
  {
  }

  lemma {:induction false} QuotientTimesCount(s: real, n: real)
    requires n != 0.0
    ensures s / n * n == s
  {
  }

  /** Sum of the lengths of the buffers that became records. */
  function TotalLength(bs: seq<seq<Row>>): nat
  {
    if |bs| == 0 then 0 else TotalLength(bs[..|bs| - 1]) + |bs[|bs| - 1]|
  }

  lemma {:induction false} TotalLengthSnoc(bs: seq<seq<Row>>, b: seq<Row>)
    ensures TotalLength(bs + [b]) == TotalLength(bs) + |b|
  {
    assert (bs + [b])[..|bs|] == bs;
  }

  /** Each record is the average of its (non-empty) buffer over the window starting at its start
    * (stated record by record from the last one back, see RecordsOfAll). */
  predicate RecordsOf(out: seq<Record>, buffers: seq<seq<Row>>, starts: seq<real>, it: nat, width: nat, window: real)
    requires window != 0.0
  {
    && |out| == |buffers| == |starts|
    && (|out| > 0 ==>
          var n := |out| - 1;
          && RecordsOf(out[..n], buffers[..n], starts[..n], it, width, window)
          && |buffers[n]| >= 1 && out[n] == MakeRecord(buffers[n], it, width, starts[n], window))
  }

  /** RecordsOf, record by record. */
  lemma {:induction false} RecordsOfAll(out: seq<Record>, buffers: seq<seq<Row>>, starts: seq<real>, it: nat, width: nat, window: real)
    requires window != 0.0
    requires RecordsOf(out, buffers, starts, it, width, window)
    ensures forall j :: 0 <= j < |out| ==>
      |buffers[j]| >= 1 && out[j] == MakeRecord(buffers[j], it, width, starts[j], window)
  {
    if |out| > 0 {
      var n := |out| - 1;
      RecordsOfAll(out[..n], buffers[..n], starts[..n], it, width, window);
    }
  }

  /** Each buffer is exactly the rows of the table that lie in its window. */
  predicate WindowsOf(buffers: seq<seq<Row>>, starts: seq<real>, rows: seq<Row>, it: nat, window: real)
  {
    && |buffers| == |starts|
    && forall j :: 0 <= j < |buffers| ==> buffers[j] == Filter(rows, InWindow(it, starts[j], starts[j] + window))
  }

  /** Consecutive window starts are at least `step` apart. */
  predicate Spaced(starts: seq<real>, step: real)
  {
    forall j :: 0 < j < |starts| ==> starts[j - 1] + step <= starts[j]
  }

  lemma {:induction false} RecordsOfSnoc(out: seq<Record>, buffers: seq<seq<Row>>, starts: seq<real>, it: nat, width: nat, window: real,
                      wd: seq<Row>, ta: real)
    requires window != 0.0 && |wd| >= 1
    requires RecordsOf(out, buffers, starts, it, width, window)
    ensures RecordsOf(out + [MakeRecord(wd, it, width, ta, window)], buffers + [wd], starts + [ta], it, width, window)
  {
    assert (out + [MakeRecord(wd, it, width, ta, window)])[..|out|] == out;
    assert (buffers + [wd])[..|buffers|] == buffers;
    assert (starts + [ta])[..|starts|] == starts;
  }

  lemma {:induction false} WindowsOfSnoc(buffers: seq<seq<Row>>, starts: seq<real>, rows: seq<Row>, it: nat, window: real,
                      wd: seq<Row>, ta: real)
    requires WindowsOf(buffers, starts, rows, it, window)
    requires wd == Filter(rows, InWindow(it, ta, ta + window))
    ensures WindowsOf(buffers + [wd], starts + [ta], rows, it, window)
  {
  }

  lemma {:induction false} SpacedSnoc(moving: bool, starts: seq<real>, step: real, ta: real)
    requires moving ==> Spaced(starts, step) && (|starts| > 0 ==> starts[|starts| - 1] + step <= ta)
    ensures moving ==> Spaced(starts + [ta], step)
  {
  }

  /** The state of `average_computed` between rows: the window's left edge (the right edge is
    * always `ta + window`), the buffered rows and the records appended so far. */
  datatype Window = Window(ta: real, wd: seq<Row>, out: seq<Record>)

  /**
   * One row of `average_computed`: a row before the right edge joins the buffer; any other row
   * records the buffer (if it holds anything), moves the left edge on by `step`, or to the row
   * itself when the row lies beyond the moved window, clears the buffer (`shift == 1`) or keeps
   * only the rows inside the new window, and then buffers the row.
   */
  function Step(w: Window, row: Row, it: nat, width: nat, window: real, shift: real, step: real): Window
    requires window != 0.0
  {
    var t := ValueOf(row, it);
    if t < w.ta + window then w.(wd := w.wd + [row])
    else
      var out := if |w.wd| > 0 then w.out + [MakeRecord(w.wd, it, width, w.ta, window)] else w.out;
      var moved := w.ta + step;
      var ta := if t >= moved + window then t else moved;
      var kept := if shift == 1.0 then [] else Filter(w.wd, InWindow(it, ta, ta + window));
      Window(ta, kept + [row], out)
  }

  /** Step always leaves the row it was given at the end of the buffer, and appends at most one
    * record, keeping the earlier ones. */
  lemma {:induction false} StepAppends(w: Window, row: Row, it: nat, width: nat, window: real, shift: real, step: real)
    requires window != 0.0
    ensures var r := Step(w, row, it, width, window, shift, step);
      && |r.wd| >= 1 && r.wd[|r.wd| - 1] == row
      && |w.out| <= |r.out| <= |w.out| + 1 && r.out[..|w.out|] == w.out
  {
    var r := Step(w, row, it, width, window, shift, step);
    assert r.out == w.out || r.out == w.out + [MakeRecord(w.wd, it, width, w.ta, window)];
  }

  /** The state after the first n rows have gone through Step one by one, starting from `w`. */
  function Sweep(rows: seq<Row>, n: nat, w: Window, it: nat, width: nat, window: real, shift: real, step: real): Window
    requires window != 0.0 && n <= |rows|
  {
    if n == 0 then w
    else Step(Sweep(rows, n - 1, w, it, width, window, shift, step), rows[n - 1], it, width, window, shift, step)
  }

  /** Records are only ever appended, at most one per row, and the last row swept is always
    * buffered. */
  lemma {:induction false} SweepAppends(rows: seq<Row>, n: nat, w: Window, it: nat, width: nat, window: real, shift: real, step: real)
    requires window != 0.0 && n <= |rows|
    ensures var r := Sweep(rows, n, w, it, width, window, shift, step);
      && |w.out| <= |r.out| <= |w.out| + n && r.out[..|w.out|] == w.out
      && (n > 0 ==> |r.wd| >= 1 && r.wd[|r.wd| - 1] == rows[n - 1])
  {
    if n > 0 {
      var prev := Sweep(rows, n - 1, w, it, width, window, shift, step);
      SweepAppends(rows, n - 1, w, it, width, window, shift, step);
      StepAppends(prev, rows[n - 1], it, width, window, shift, step);
      var r := Sweep(rows, n, w, it, width, window, shift, step);
      assert r.out[..|prev.out|] == prev.out;
      assert r.out[..|w.out|] == prev.out[..|w.out|];
    }
  }

  /** The two cases of Step, spelled out: a row before the right edge is buffered; any other
    * row records a non-empty buffer, moves the window and starts the new buffer. */
  lemma {:induction false} StepCases(w: Window, row: Row, it: nat, width: nat, window: real, shift: real, step: real,
                                     tb0: real, ta: real, tb: real, wd: seq<Row>, out: seq<Record>)
    requires window != 0.0 && tb0 == w.ta + window
    requires ValueOf(row, it) < tb0 ==> ta == w.ta && tb == tb0 && wd == w.wd + [row] && out == w.out
    requires tb0 <= ValueOf(row, it) ==>
      && out == (if |w.wd| > 0 then w.out + [MakeRecord(w.wd, it, width, w.ta, window)] else w.out)
      && ta == (if ValueOf(row, it) >= w.ta + step + window then ValueOf(row, it) else w.ta + step)
      && tb == ta + window
      && wd == (if shift == 1.0 then [] else Filter(w.wd, InWindow(it, ta, tb))) + [row]
    ensures Step(w, row, it, width, window, shift, step) == Window(ta, wd, out)
  {
  }

  /** One more pass of the loop of `average_computed` is one more Step of the sweep. */
  lemma {:induction false} SweepOneMore(rows: seq<Row>, i: nat, w0: Window, it: nat, width: nat, window: real, shift: real, step: real,
                                        ta0: real, tb0: real, wd0: seq<Row>, out0: seq<Record>,
                                        ta: real, tb: real, wd: seq<Row>, out: seq<Record>)
    requires window != 0.0 && i < |rows| && tb0 == ta0 + window
    requires Window(ta0, wd0, out0) == Sweep(rows, i, w0, it, width, window, shift, step)
    requires ValueOf(rows[i], it) < tb0 ==> ta == ta0 && tb == tb0 && wd == wd0 + [rows[i]] && out == out0
    requires tb0 <= ValueOf(rows[i], it) ==>
      && out == (if |wd0| > 0 then out0 + [MakeRecord(wd0, it, width, ta0, window)] else out0)
      && ta == (if ValueOf(rows[i], it) >= ta0 + step + window then ValueOf(rows[i], it) else ta0 + step)
      && tb == ta + window
      && wd == (if shift == 1.0 then [] else Filter(wd0, InWindow(it, ta, tb))) + [rows[i]]
    ensures Window(ta, wd, out) == Sweep(rows, i + 1, w0, it, width, window, shift, step)
  {
    StepCases(Window(ta0, wd0, out0), rows[i], it, width, window, shift, step, tb0, ta, tb, wd, out);
  }

  /** Where the program records its first buffer: times 0 and 1, a window of 1 moved by half its
    * width. The first row is buffered, the second reaches the right edge, so the first row is
    * recorded over [0, 1) and the window moves to [0.5, 1.5), holding the second row only. */
  lemma {:induction false} SweepHalfShift()
    ensures var r0, r1 := Row([0.0], 1.0), Row([1.0], 1.0);
      var w := Sweep([r0, r1], 2, Window(0.0, [], []), 0, 1, 1.0, 0.5, 0.5);
      && w.out == [MakeRecord([r0], 0, 1, 0.0, 1.0)]
      && w.ta == 0.5 && w.wd == [r1]
  {
    var r0, r1 := Row([0.0], 1.0), Row([1.0], 1.0);
    var w0 := Window(0.0, [], []);
    assert Sweep([r0, r1], 1, w0, 0, 1, 1.0, 0.5, 0.5) == Window(0.0, [r0], []);
    assert !InWindow(0, 0.5, 1.5)(r0);
    assert Filter([r0], InWindow(0, 0.5, 1.5)) == [] by {
      assert [r0][1..] == [];
    }
  }

  /** With shift 1 and a window of 2 over times 0, 1, 2, 3 the rows 0 and 1 are recorded over
    * [0, 2), and rows 2 and 3 stay buffered in [2, 4) and are never recorded. */
  lemma {:induction false} SweepFullShift()
    ensures var r0, r1, r2, r3 := Row([0.0], 1.0), Row([1.0], 1.0), Row([2.0], 1.0), Row([3.0], 1.0);
      var w := Sweep([r0, r1, r2, r3], 4, Window(0.0, [], []), 0, 1, 2.0, 1.0, 2.0);
      && w.out == [MakeRecord([r0, r1], 0, 1, 0.0, 2.0)]
      && w.ta == 2.0 && w.wd == [r2, r3]
  {
    var r0, r1, r2, r3 := Row([0.0], 1.0), Row([1.0], 1.0), Row([2.0], 1.0), Row([3.0], 1.0);
    var rows := [r0, r1, r2, r3];
    var w0 := Window(0.0, [], []);
    assert Sweep(rows, 1, w0, 0, 1, 2.0, 1.0, 2.0) == Window(0.0, [r0], []);
    assert Sweep(rows, 2, w0, 0, 1, 2.0, 1.0, 2.0) == Window(0.0, [r0, r1], []);
    assert Sweep(rows, 3, w0, 0, 1, 2.0, 1.0, 2.0) == Window(2.0, [r2], [MakeRecord([r0, r1], 0, 1, 0.0, 2.0)]);
  }

  /**
   * What holds after the first i rows have been scanned: the window is [ta, tb); every record so
   * far averages its buffer; the buffer ends with the last row scanned; window starts are a full
   * step apart (for a forward window); with shift 1 every row scanned is in exactly one buffer;
   * and on a time-ordered table each buffer is its window's share of the table.
   */
  predicate Scanned(rows: seq<Row>, it: nat, width: nat, window: real, shift: real, step: real, ordered: bool,
                    i: nat, ta: real, tb: real, wd: seq<Row>, out: seq<Record>, buffers: seq<seq<Row>>, starts: seq<real>)
    requires window != 0.0
  {
    && i <= |rows|
    && tb == ta + window
    && RecordsOf(out, buffers, starts, it, width, window) && |out| <= i
    && (i > 0 ==> |wd| >= 1 && wd[|wd| - 1] == rows[i - 1])
    && (window > 0.0 ==> Spaced(starts, step) && (|starts| > 0 ==> starts[|starts| - 1] + step <= ta))
    && (shift == 1.0 ==> TotalLength(buffers) + |wd| == i)
    && (ordered ==> BufferIsWindow(rows, i, it, ta, tb, wd) && WindowsOf(buffers, starts, rows, it, window))
  }

  /** A row before the right edge joins the buffer. */
  lemma {:induction false} KeepStep(rows: seq<Row>, it: nat, width: nat, window: real, shift: real, step: real, ordered: bool,
                                    i: nat, ta: real, tb: real, wd: seq<Row>, out: seq<Record>, buffers: seq<seq<Row>>, starts: seq<real>)
    requires window != 0.0 && i < |rows| && (ordered ==> TimeOrdered(rows, it))
    requires Scanned(rows, it, width, window, shift, step, ordered, i, ta, tb, wd, out, buffers, starts)
    requires ValueOf(rows[i], it) < tb
    ensures Scanned(rows, it, width, window, shift, step, ordered, i + 1, ta, tb, wd + [rows[i]], out, buffers, starts)
  {
    AppendKeepsWindow(ordered, rows, i, it, ta, tb, wd);
  }

  /** A row at or beyond the right edge records the buffer (if any), moves the window on and
    * starts the new buffer, which holds the triggering row. */
  lemma {:induction false} MoveStep(rows: seq<Row>, it: nat, width: nat, window: real, shift: real, step: real, ordered: bool, i: nat,
                                    ta0: real, tb0: real, wd0: seq<Row>, out0: seq<Record>, buffers0: seq<seq<Row>>, starts0: seq<real>,
                                    ta: real, tb: real, wd: seq<Row>, out: seq<Record>, buffers: seq<seq<Row>>, starts: seq<real>)
    requires window != 0.0 && i < |rows|
    requires window > 0.0 ==> 0.0 < step <= window
    requires shift == 1.0 ==> step == window
    requires ordered ==> window > 0.0 && TimeOrdered(rows, it)
    requires Scanned(rows, it, width, window, shift, step, ordered, i, ta0, tb0, wd0, out0, buffers0, starts0)
    requires tb0 <= ValueOf(rows[i], it)
    requires |wd0| > 0 ==> && out == out0 + [MakeRecord(wd0, it, width, ta0, window)]
                           && buffers == buffers0 + [wd0] && starts == starts0 + [ta0]
    requires |wd0| == 0 ==> out == out0 && buffers == buffers0 && starts == starts0
    requires ta == if ValueOf(rows[i], it) >= ta0 + step + window then ValueOf(rows[i], it) else ta0 + step
    requires tb == ta + window
    requires wd == (if shift == 1.0 then [] else Filter(wd0, InWindow(it, ta, tb))) + [rows[i]]
    ensures Scanned(rows, it, width, window, shift, step, ordered, i + 1, ta, tb, wd, out, buffers, starts)
  {
    if |wd0| > 0 {
      RecordsOfSnoc(out0, buffers0, starts0, it, width, window, wd0, ta0);
      EmitKeepsWindows(ordered, rows, i, it, ta0, tb0, wd0, buffers0, starts0, window);
      SpacedSnoc(window > 0.0, starts0, step, ta0);
      TotalLengthSnoc(buffers0, wd0);
    }
    var pruned := if shift == 1.0 then [] else Filter(wd0, InWindow(it, ta, tb));
    AdvanceKeepsWindow(ordered, rows, i, it, ta0, tb0, wd0, ta, tb, shift == 1.0, pruned);
  }

  /**
   * `average_computed` over the rows of a table with columns `colnames`. The caller only
   * averages with a non-zero window. Besides the records, the ghost results name the buffer and
   * the left edge behind each record, and the buffer and left edge left over at the end (never
   * emitted).
   */
  method Average(rows: seq<Row>, colnames: seq<string>, window: real, shift: real)
    returns (r: Result<seq<Record>, AverageError>,
             ghost buffers: seq<seq<Row>>, ghost starts: seq<real>, ghost pending: seq<Row>, ghost last: real)
    requires window != 0.0
    requires Rectangular(rows, |colnames|)
    ensures !(0.0 < shift <= 1.0) ==> r == Err(BadShift)
    ensures 0.0 < shift <= 1.0 && "time" !in colnames ==> r == Err(NoTimeColumn)
    ensures 0.0 < shift <= 1.0 && "time" in colnames && |rows| == 0 ==> r == Err(EmptyTable)
    ensures 0.0 < shift <= 1.0 && "time" in colnames && |rows| > 0 ==> r.Ok?
    ensures r.Ok? ==>
      var it := IndexOf(colnames, "time").value;
      var w := Sweep(rows, |rows|, Window(ValueOf(rows[0], it), [], []), it, |colnames|, window, shift, shift * window);
      && r.value == w.out && pending == w.wd && last == w.ta
      && RecordsOf(r.value, buffers, starts, it, |colnames|, window)
      && |r.value| <= |rows|
      && |pending| >= 1 && pending[|pending| - 1] == rows[|rows| - 1]
      && (window > 0.0 ==> Spaced(starts, shift * window))
      && (shift == 1.0 ==> TotalLength(buffers) + |pending| == |rows|)
      && (window > 0.0 && TimeOrdered(rows, it) ==>
            WindowsOf(buffers, starts, rows, it, window) && pending == Filter(rows, InWindow(it, last, last + window)))
  {
    if !(0.0 < shift <= 1.0) {
      return Err(BadShift), [], [], [], 0.0;
    }
    var index := IndexOf(colnames, "time");
    if index.None? {
      return Err(NoTimeColumn), [], [], [], 0.0;
    }
    if |rows| == 0 {
      return Err(EmptyTable), [], [], [], 0.0;
    }
    var it := index.value;
    var step := shift * window;  // how far the window moves on
    PositiveStep(shift, window, step);
    var out, wd, ta, tb;
    out, wd, ta, tb, buffers, starts := Slide(rows, it, |colnames|, window, shift, step);
    r := Ok(out);
    pending, last := wd, ta;
    assert rows[..|rows|] == rows;
  }

  /** The loop of `average_computed` on a validated table: `it` is the time column and the window
    * moves on by `step`. */
  method Slide(rows: seq<Row>, it: nat, width: nat, window: real, shift: real, step: real)
    returns (out: seq<Record>, wd: seq<Row>, ta: real, tb: real, ghost buffers: seq<seq<Row>>, ghost starts: seq<real>)
    requires window != 0.0 && |rows| > 0
    requires Rectangular(rows, width) && it < width
    requires window > 0.0 ==> 0.0 < step <= window
    requires shift == 1.0 ==> step == window
    ensures Window(ta, wd, out) == Sweep(rows, |rows|, Window(ValueOf(rows[0], it), [], []), it, width, window, shift, step)
    ensures Scanned(rows, it, width, window, shift, step, window > 0.0 && TimeOrdered(rows, it),
                    |rows|, ta, tb, wd, out, buffers, starts)
  {
    ghost var ordered := window > 0.0 && TimeOrdered(rows, it);
    ta := rows[0].values[it];
    tb := ta + window;
    wd := [];
    out := [];
    buffers, starts := [], [];
    ScanStart(rows, it, width, window, shift, step, ordered, ta, tb);
    ghost var w0 := Window(ta, [], []);
    for i := 0 to |rows|
      invariant Window(ta, wd, out) == Sweep(rows, i, w0, it, width, window, shift, step)
      invariant Scanned(rows, it, width, window, shift, step, ordered, i, ta, tb, wd, out, buffers, starts)
    {
      ghost var ta0, tb0, wd0, out0 := ta, tb, wd, out;
      ta, tb, wd, out, buffers, starts :=
        Scan(rows, it, width, window, shift, step, ordered, i, ta, tb, wd, out, buffers, starts);
      SweepOneMore(rows, i, w0, it, width, window, shift, step, ta0, tb0, wd0, out0, ta, tb, wd, out);
    }
  }

  /** Before any row is scanned the window starts at the first row's time and nothing is buffered. */
  lemma {:induction false} ScanStart(rows: seq<Row>, it: nat, width: nat, window: real, shift: real, step: real,
                                     ordered: bool, ta: real, tb: real)
    requires window != 0.0 && |rows| > 0 && Rectangular(rows, width) && it < width
    requires ordered ==> window > 0.0 && TimeOrdered(rows, it)
    requires ta == ValueOf(rows[0], it) && tb == ta + window
    ensures Scanned(rows, it, width, window, shift, step, ordered, 0, ta, tb, [], [], [], [])
  {
    assert rows[..0] == [];
  }

  /** One pass of the loop body of `average_computed`: the row joins the buffer, or moves the window on. */
  method Scan(rows: seq<Row>, it: nat, width: nat, window: real, shift: real, step: real, ghost ordered: bool, i: nat,
              ta0: real, tb0: real, wd0: seq<Row>, out0: seq<Record>, ghost buffers0: seq<seq<Row>>, ghost starts0: seq<real>)
    returns (ta: real, tb: real, wd: seq<Row>, out: seq<Record>, ghost buffers: seq<seq<Row>>, ghost starts: seq<real>)
    requires window != 0.0 && i < |rows| && Rectangular(rows, width) && it < width
    requires window > 0.0 ==> 0.0 < step <= window
    requires shift == 1.0 ==> step == window
    requires ordered ==> window > 0.0 && TimeOrdered(rows, it)
    requires Scanned(rows, it, width, window, shift, step, ordered, i, ta0, tb0, wd0, out0, buffers0, starts0)
    ensures ValueOf(rows[i], it) < tb0 ==> ta == ta0 && tb == tb0 && wd == wd0 + [rows[i]] && out == out0
    ensures tb0 <= ValueOf(rows[i], it) ==>
      && out == (if |wd0| > 0 then out0 + [MakeRecord(wd0, it, width, ta0, window)] else out0)
      && ta == (if ValueOf(rows[i], it) >= ta0 + step + window then ValueOf(rows[i], it) else ta0 + step)
      && tb == ta + window
      && wd == (if shift == 1.0 then [] else Filter(wd0, InWindow(it, ta, tb))) + [rows[i]]
    ensures Scanned(rows, it, width, window, shift, step, ordered, i + 1, ta, tb, wd, out, buffers, starts)
  {
    var row := rows[i];
    var t := row.values[it];
    if t < tb0 {
      KeepStep(rows, it, width, window, shift, step, ordered, i, ta0, tb0, wd0, out0, buffers0, starts0);
      ta, tb, wd, out, buffers, starts := ta0, tb0, wd0 + [row], out0, buffers0, starts0;
    } else {
      ta, tb, wd, out, buffers, starts :=
        MoveOn(rows, it, width, window, shift, step, ordered, i, ta0, tb0, wd0, out0, buffers0, starts0);
    }
  }

  /** The loop body of `average_computed` for a row at or beyond the right edge: record the buffer
    * (if any), move the window on by `step` (or jump to the row), and start the new buffer. */
  method MoveOn(rows: seq<Row>, it: nat, width: nat, window: real, shift: real, step: real, ghost ordered: bool, i: nat,
                ta0: real, tb0: real, wd0: seq<Row>, out0: seq<Record>, ghost buffers0: seq<seq<Row>>, ghost starts0: seq<real>)
    returns (ta: real, tb: real, wd: seq<Row>, out: seq<Record>, ghost buffers: seq<seq<Row>>, ghost starts: seq<real>)
    requires window != 0.0 && i < |rows| && Rectangular(rows, width) && it < width
    requires window > 0.0 ==> 0.0 < step <= window
    requires shift == 1.0 ==> step == window
    requires ordered ==> window > 0.0 && TimeOrdered(rows, it)
    requires Scanned(rows, it, width, window, shift, step, ordered, i, ta0, tb0, wd0, out0, buffers0, starts0)
    requires tb0 <= ValueOf(rows[i], it)
    ensures out == if |wd0| > 0 then out0 + [MakeRecord(wd0, it, width, ta0, window)] else out0
    ensures ta == (if ValueOf(rows[i], it) >= ta0 + step + window then ValueOf(rows[i], it) else ta0 + step)
    ensures tb == ta + window
    ensures wd == (if shift == 1.0 then [] else Filter(wd0, InWindow(it, ta, tb))) + [rows[i]]
    ensures Scanned(rows, it, width, window, shift, step, ordered, i + 1, ta, tb, wd, out, buffers, starts)
  {
    var row := rows[i];
    var t := row.values[it];
    out, buffers, starts := out0, buffers0, starts0;
    if |wd0| > 0 {
      out := out + [MakeRecord(wd0, it, width, ta0, window)];
      buffers, starts := buffers + [wd0], starts + [ta0];
    }
    ta := ta0 + step;
    tb := ta + window;
    if t >= tb {
      ta := t;
      tb := ta + window;
    }
    if shift == 1.0 {
      wd := [];
    } else {
      wd := Filter(wd0, InWindow(it, ta, tb));
    }
    wd := wd + [row];
    MoveStep(rows, it, width, window, shift, step, ordered, i,
             ta0, tb0, wd0, out0, buffers0, starts0, ta, tb, wd, out, buffers, starts);
  }

  /** The buffer after the first i rows: exactly the rows seen so far that lie in [ta, tb); every
    * row seen so far lies before tb; and the next row is not before ta. */
  predicate BufferIsWindow(rows: seq<Row>, i: nat, it: nat, ta: real, tb: real, wd: seq<Row>)
    requires i <= |rows|
  {
    && wd == Filter(rows[..i], InWindow(it, ta, tb))
    && (forall k :: 0 <= k < i ==> ValueOf(rows[k], it) < tb)
    && (i < |rows| ==> ta <= ValueOf(rows[i], it))
  }

  /** A row before the right edge joins the buffer. */
  lemma {:induction false} AppendKeepsWindow(ordered: bool, rows: seq<Row>, i: nat, it: nat, ta: real, tb: real, wd: seq<Row>)
    requires i < |rows|
    requires ordered ==> TimeOrdered(rows, it) && BufferIsWindow(rows, i, it, ta, tb, wd) && ValueOf(rows[i], it) < tb
    ensures ordered ==> BufferIsWindow(rows, i + 1, it, ta, tb, wd + [rows[i]])
  {
    if ordered {
      FilterSnoc(rows, i, InWindow(it, ta, tb));
    }
  }

  /** At a trigger row the buffer is the whole window's share of the table, so recording it keeps
    * every recorded buffer equal to its window's rows. */
  lemma {:induction false} EmitKeepsWindows(ordered: bool, rows: seq<Row>, i: nat, it: nat, ta: real, tb: real, wd: seq<Row>,
                                            buffers: seq<seq<Row>>, starts: seq<real>, window: real)
    requires i < |rows| && tb == ta + window
    requires ordered ==> && TimeOrdered(rows, it) && BufferIsWindow(rows, i, it, ta, tb, wd)
                         && tb <= ValueOf(rows[i], it) && WindowsOf(buffers, starts, rows, it, window)
    ensures ordered ==> WindowsOf(buffers + [wd], starts + [ta], rows, it, window)
  {
    if ordered {
      EmittedBufferIsWindow(rows, i, it, ta, tb, wd);
      WindowsOfSnoc(buffers, starts, rows, it, window, wd, ta);
    }
  }

  /** After the window moves forward (far enough that the triggering row lies in it), the cleared
    * or pruned buffer plus the triggering row is again the window's share of the rows seen. */
  lemma {:induction false} AdvanceKeepsWindow(ordered: bool, rows: seq<Row>, i: nat, it: nat, ta0: real, tb0: real, wd0: seq<Row>,
                                              ta: real, tb: real, cleared: bool, wd: seq<Row>)
    requires i < |rows|
    requires ordered ==> && TimeOrdered(rows, it) && BufferIsWindow(rows, i, it, ta0, tb0, wd0)
                         && ta0 <= ta && tb0 < tb && ta <= ValueOf(rows[i], it) < tb
                         && (cleared ==> tb0 <= ta)
    requires wd == if cleared then [] else Filter(wd0, InWindow(it, ta, tb))
    ensures ordered ==> BufferIsWindow(rows, i + 1, it, ta, tb, wd + [rows[i]])
  {
    if ordered {
      AdvancedBufferIsWindow(rows, i, it, ta0, tb0, wd0, ta, tb, cleared, wd);
    }
  }

  /** At a trigger row every later row lies at or beyond the right edge, so the rows buffered so
    * far are all the rows of the window. */
  lemma {:induction false} EmittedBufferIsWindow(rows: seq<Row>, i: nat, it: nat, ta: real, tb: real, wd: seq<Row>)
    requires i < |rows| && TimeOrdered(rows, it)
    requires tb <= ValueOf(rows[i], it)
    requires wd == Filter(rows[..i], InWindow(it, ta, tb))
    ensures wd == Filter(rows, InWindow(it, ta, tb))
  {
    assert rows == rows[..i] + rows[i..];
    FilterAppend(rows[..i], rows[i..], InWindow(it, ta, tb));
    forall k | 0 <= k < |rows[i..]| ensures !InWindow(it, ta, tb)(rows[i..][k]) {
      assert rows[i..][k] == rows[i + k];
    }
    FilterNone(rows[i..], InWindow(it, ta, tb));
  }

  /** After the window moves forward, the cleared or pruned buffer plus the triggering row is
    * again exactly the rows seen so far that lie in the new window. */
  lemma {:induction false} AdvancedBufferIsWindow(rows: seq<Row>, i: nat, it: nat, ta0: real, tb0: real, wd0: seq<Row>,
                               ta: real, tb: real, cleared: bool, wd: seq<Row>)
    requires i < |rows|
    requires ta0 <= ta && tb0 < tb && ta <= ValueOf(rows[i], it) < tb
    requires cleared ==> tb0 <= ta
    requires wd0 == Filter(rows[..i], InWindow(it, ta0, tb0))
    requires forall k :: 0 <= k < i ==> ValueOf(rows[k], it) < tb0
    requires wd == if cleared then [] else Filter(wd0, InWindow(it, ta, tb))
    ensures wd + [rows[i]] == Filter(rows[..i + 1], InWindow(it, ta, tb))
  {
    var s := rows[..i];
    FilterSnoc(rows, i, InWindow(it, ta, tb));
    if cleared {
      FilterNone(s, InWindow(it, ta, tb));
    } else {
      FilterNarrow(s, InWindow(it, ta0, tb0), InWindow(it, ta, tb));
    }
  }
}
