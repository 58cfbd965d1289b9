/**
 * The usage ledger: how many confirmed transactions each NIK has this
 * month, rebuilt from the master log at the start of every run.
 *
 * A row counts when its status starts with `Sukses` and the month of its
 * timestamp equals the current month. The year is not compared, the
 * quantity is not summed: every counted row adds exactly one.
 */
module Ledger {
  import opened Wrappers
  import opened Text
  import opened Dates
  import opened Records

  /** A transaction the upstream service confirmed. */
  predicate IsConfirmed(row: LogRow) {
    StartsWith(row.status, "Sukses")
  }

  /** The filter of the usage scan: confirmed, and dated in `month` of any year. */
  predicate CountsInMonth(row: LogRow, month: int) {
    && IsConfirmed(row)
    && var d := ParseDate(row.tanggal);
       d.Some? && d.value.month == month
  }

  /** A NIK's usage in the map; a NIK without an entry has used nothing. */
  function Usage(m: map<string, nat>, nik: string): nat {
    if nik in m then m[nik] else 0
  }

  /** One step of the scan: a counted row adds one to its NIK. */
  function AddRow(m: map<string, nat>, row: LogRow, month: int): map<string, nat> {
    if CountsInMonth(row, month) then m[row.noKTP := Usage(m, row.noKTP) + 1] else m
  }

  /** The scan of one outlet's sheet, row by row in log order. */
  function UsageMap(rows: seq<LogRow>, month: int): map<string, nat>
    decreases |rows|
  {
    if |rows| == 0 then map[]
    else AddRow(UsageMap(rows[..|rows| - 1], month), rows[|rows| - 1], month)
  }

  /** Reference count: the number of counted rows of `nik`. */
  function CountFor(rows: seq<LogRow>, nik: string, month: int): nat
    decreases |rows|
  {
    if |rows| == 0 then 0
    else
      var here := if rows[0].noKTP == nik && CountsInMonth(rows[0], month) then 1 else 0;
      here + CountFor(rows[1..], nik, month)
  }

  lemma {:induction false} CountForConcat(a: seq<LogRow>, b: seq<LogRow>, nik: string, month: int)
    ensures CountFor(a + b, nik, month) == CountFor(a, nik, month) + CountFor(b, nik, month)
    decreases |a|
  {
    if |a| > 0 {
      assert (a + b)[1..] == a[1..] + b;
      CountForConcat(a[1..], b, nik, month);
    } else {
      assert a + b == b;
    }
  }

  /** A row changes the usage of its own NIK only, by one exactly when it counts. */
  lemma UsageMapAppend(rows: seq<LogRow>, row: LogRow, month: int, nik: string)
    ensures Usage(UsageMap(rows + [row], month), nik) ==
      Usage(UsageMap(rows, month), nik) + (if row.noKTP == nik && CountsInMonth(row, month) then 1 else 0)
  {
    assert (rows + [row])[..|rows|] == rows;
  }

  /** The scan's usage of a NIK is the number of its counted rows. */
  lemma {:induction false} UsageMapCounts(rows: seq<LogRow>, month: int, nik: string)
    ensures Usage(UsageMap(rows, month), nik) == CountFor(rows, nik, month)
    decreases |rows|
  {
    if |rows| > 0 {
      var init, last := rows[..|rows| - 1], rows[|rows| - 1];
      assert rows == init + [last];
      UsageMapCounts(init, month, nik);
      UsageMapAppend(init, last, month, nik);
      CountForConcat(init, [last], nik, month);
      assert CountFor([last], nik, month) == (if last.noKTP == nik && CountsInMonth(last, month) then 1 else 0);
    }
  }

  /** Only NIKs with a counted row appear in the scan's map. */
  lemma {:induction false} UsageMapKeys(rows: seq<LogRow>, month: int, nik: string)
    requires nik in UsageMap(rows, month)
    ensures exists i :: 0 <= i < |rows| && rows[i].noKTP == nik && CountsInMonth(rows[i], month)
    decreases |rows|
  {
    var init, last := rows[..|rows| - 1], rows[|rows| - 1];
    if !(last.noKTP == nik && CountsInMonth(last, month)) {
      UsageMapKeys(init, month, nik);
      var i :| 0 <= i < |init| && init[i].noKTP == nik && CountsInMonth(init[i], month);
      assert rows[i] == init[i];
    }
  }

  /**
   * The year is ignored: a confirmed row dated in the current month of any
   * year counts, and one dated in another month never does.
   */
  lemma YearIgnored(row: LogRow, d: Date, time: string, month: int)
    requires IsConfirmed(row) && ValidDate(d)
    ensures CountsInMonth(row.(tanggal := Stamp(d, time)), month) <==> d.month == month
  {
    ParseStamp(d, time);
  }

  /** Replacing a row by one of the same NIK that counts alike leaves every count unchanged. */
  lemma {:induction false} CountForReplace(rows: seq<LogRow>, i: nat, row: LogRow, nik: string, month: int)
    requires i < |rows| && row.noKTP == rows[i].noKTP
    requires CountsInMonth(row, month) <==> CountsInMonth(rows[i], month)
    ensures CountFor(rows[i := row], nik, month) == CountFor(rows, nik, month)
    decreases |rows|
  {
    var rows' := rows[i := row];
    if i > 0 {
      assert rows'[1..] == rows[1..][i - 1 := row];
      CountForReplace(rows[1..], i - 1, row, nik, month);
    } else {
      assert rows'[1..] == rows[1..];
    }
  }

  /** Quantities are ignored: changing a row's quantity never changes whether it counts. */
  lemma QuantityIgnored(rows: seq<LogRow>, i: nat, q: Option<int>, month: int, nik: string)
    requires i < |rows|
    ensures Usage(UsageMap(rows[i := rows[i].(quantity := q)], month), nik) == Usage(UsageMap(rows, month), nik)
  {
    UsageMapCounts(rows, month, nik);
    UsageMapCounts(rows[i := rows[i].(quantity := q)], month, nik);
    CountForReplace(rows, i, rows[i].(quantity := q), nik, month);
  }

  // ---------------------------------------------------------------------
  // Usage across all outlets, as the plan builders collect it
  // ---------------------------------------------------------------------

  /** Every row of every sheet, tagged with its sheet's name, sheet by sheet. */
  function Flatten(sheets: seq<Sheet>): (es: seq<(string, LogRow)>)
    decreases |sheets|
  {
    if |sheets| == 0 then []
    else Tag(sheets[0].name, sheets[0].rows) + Flatten(sheets[1..])
  }

  function Tag(name: string, rows: seq<LogRow>): (es: seq<(string, LogRow)>)
    ensures |es| == |rows|
    ensures forall i :: 0 <= i < |rows| ==> es[i] == (name, rows[i])
  {
    seq(|rows|, i requires 0 <= i < |rows| => (name, rows[i]))
  }

  /** A NIK's usage at one outlet sheet in the two-level map; zero when either level has no entry. */
  function OutletUsage(g: map<string, map<string, nat>>, nik: string, sheet: string): nat {
    if nik in g && sheet in g[nik] then g[nik][sheet] else 0
  }

  /** The two-level map NIK -> sheet -> count built by the plan builders' scan. */
  function GlobalUsage(es: seq<(string, LogRow)>, month: int): map<string, map<string, nat>>
    decreases |es|
  {
    if |es| == 0 then map[]
    else
      var g := GlobalUsage(es[..|es| - 1], month);
      var (sheet, row) := es[|es| - 1];
      if CountsInMonth(row, month) then
        var perSheet := if row.noKTP in g then g[row.noKTP] else map[];
        g[row.noKTP := perSheet[sheet := OutletUsage(g, row.noKTP, sheet) + 1]]
      else g
  }

  /** The rows of the entries tagged with `sheet`, in order. */
  function RowsAt(es: seq<(string, LogRow)>, sheet: string): seq<LogRow>
    decreases |es|
  {
    if |es| == 0 then []
    else (if es[0].0 == sheet then [es[0].1] else []) + RowsAt(es[1..], sheet)
  }

  lemma {:induction false} RowsAtConcat(a: seq<(string, LogRow)>, b: seq<(string, LogRow)>, sheet: string)
    ensures RowsAt(a + b, sheet) == RowsAt(a, sheet) + RowsAt(b, sheet)
    decreases |a|
  {
    if |a| > 0 {
      assert (a + b)[1..] == a[1..] + b;
      RowsAtConcat(a[1..], b, sheet);
    } else {
      assert a + b == b;
    }
  }

  lemma {:induction false} RowsAtTag(name: string, rows: seq<LogRow>, sheet: string)
    ensures RowsAt(Tag(name, rows), sheet) == if name == sheet then rows else []
    decreases |rows|
  {
    if |rows| > 0 {
      assert Tag(name, rows)[1..] == Tag(name, rows[1..]);
      RowsAtTag(name, rows[1..], sheet);
      assert [rows[0]] + rows[1..] == rows;
    }
  }

  /** The two-level map counts, per sheet, the counted rows of that sheet. */
  lemma {:induction false} GlobalUsageCounts(es: seq<(string, LogRow)>, month: int, nik: string, sheet: string)
    ensures OutletUsage(GlobalUsage(es, month), nik, sheet) == CountFor(RowsAt(es, sheet), nik, month)
    decreases |es|
  {
    if |es| > 0 {
      var init, last := es[..|es| - 1], es[|es| - 1];
      assert es == init + [last];
      GlobalUsageCounts(init, month, nik, sheet);
      RowsAtConcat(init, [last], sheet);
      CountForConcat(RowsAt(init, sheet), RowsAt([last], sheet), nik, month);
      assert RowsAt([last], sheet) == if last.0 == sheet then [last.1] else [];
    }
  }

  /** The same, for every NIK and sheet at once. */
  lemma GlobalUsageCountsAll(es: seq<(string, LogRow)>, month: int)
    ensures forall nik, sheet :: OutletUsage(GlobalUsage(es, month), nik, sheet) == CountFor(RowsAt(es, sheet), nik, month)
  {
    forall nik, sheet
      ensures OutletUsage(GlobalUsage(es, month), nik, sheet) == CountFor(RowsAt(es, sheet), nik, month)
    {
      GlobalUsageCounts(es, month, nik, sheet);
    }
  }

  lemma {:induction false} FlattenRowsAt(sheets: seq<Sheet>, sheet: string)
    requires DistinctNames(sheets)
    ensures RowsAt(Flatten(sheets), sheet) == SheetRows(sheets, sheet)
    decreases |sheets|
  {
    if |sheets| > 0 {
      RowsAtConcat(Tag(sheets[0].name, sheets[0].rows), Flatten(sheets[1..]), sheet);
      RowsAtTag(sheets[0].name, sheets[0].rows, sheet);
      FlattenRowsAt(sheets[1..], sheet);
      if sheets[0].name == sheet {
        NoSheetNoRows(sheets[1..], sheet);
      }
    }
  }

  lemma {:induction false} NoSheetNoRows(sheets: seq<Sheet>, sheet: string)
    requires forall k :: 0 <= k < |sheets| ==> sheets[k].name != sheet
    ensures SheetRows(sheets, sheet) == []
    decreases |sheets|
  {
    if |sheets| > 0 {
      NoSheetNoRows(sheets[1..], sheet);
    }
  }

  /**
   * The usage a plan builder sees for a NIK at an outlet is the usage the
   * executor's own scan of that outlet's sheet gives it.
   */
  lemma OutletUsageAgrees(sheets: seq<Sheet>, month: int, nik: string, sheet: string)
    requires DistinctNames(sheets)
    ensures OutletUsage(GlobalUsage(Flatten(sheets), month), nik, sheet)
      == Usage(UsageMap(SheetRows(sheets, sheet), month), nik)
  {
    GlobalUsageCounts(Flatten(sheets), month, nik, sheet);
    FlattenRowsAt(sheets, sheet);
    UsageMapCounts(SheetRows(sheets, sheet), month, nik);
  }

  /** `uniqueNikSet`: the NIKs with a counted row, in order of first appearance. */
  function CountedNiks(es: seq<(string, LogRow)>, month: int): (niks: seq<string>)
    ensures forall i, j :: 0 <= i < j < |niks| ==> niks[i] != niks[j]
    ensures forall n :: n in niks <==>
      exists k :: 0 <= k < |es| && es[k].1.noKTP == n && CountsInMonth(es[k].1, month)
    decreases |es|
  {
    if |es| == 0 then []
    else
      var init, row := es[..|es| - 1], es[|es| - 1].1;
      var earlier := CountedNiks(init, month);
      assert forall k :: 0 <= k < |init| ==> init[k] == es[k];
      if CountsInMonth(row, month) && row.noKTP !in earlier then earlier + [row.noKTP] else earlier
  }
}
