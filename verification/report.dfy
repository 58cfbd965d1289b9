/**
 * `runTampilkanLaporan`: the sales report of one outlet. The successful
 * rows of the outlet's sheet dated within the chosen days are summed per
 * NIK (name and category taken from the NIK's first such row), and the
 * customers are listed by total, largest first, ties in order of first
 * appearance; the report also gives the number of customers and the number
 * of cylinders sold.
 */
module Report {
  import opened Wrappers
  import opened Dates
  import opened Records
  import opened Ledger
  import opened Sorting
  import opened SheetName

  /** One line of the report: `[nik, { nama, kategori, total }]`. */
  datatype Line = Line(nik: string, nama: string, kategori: string, total: int)

  /** What the report prints: its lines, the number of customers and the cylinders sold. */
  datatype Summary = Summary(lines: seq<Line>, uniqueCustomers: nat, totalTabung: int)

  /** A row's cylinders; the program only writes numeric quantities on successful rows. */
  function QuantityOf(row: LogRow): int {
    row.quantity.GetOr(0)
  }

  /** A successful row whose date lies within the chosen days (an unreadable date never does). */
  predicate InReport(row: LogRow, start: Date, end: Date) {
    IsConfirmed(row) && ParseDate(row.tanggal).Some? && InRange(ParseDate(row.tanggal).value, start, end)
  }

  /** `logPangkalan.filter(...)`: the rows the report counts, in sheet order. */
  function Selected(rows: seq<LogRow>, start: Date, end: Date): (r: seq<LogRow>)
    ensures forall row :: row in r <==> row in rows && InReport(row, start, end)
    ensures forall row :: Occurrences(r, row) == if InReport(row, start, end) then Occurrences(rows, row) else 0
    decreases |rows|
  {
    if |rows| == 0 then []
    else
      var rest := Selected(rows[..|rows| - 1], start, end);
      var row := rows[|rows| - 1];
      assert rows == rows[..|rows| - 1] + [row];
      assert forall x :: x in rows <==> x in rows[..|rows| - 1] || x == row;
      assert forall x :: Occurrences(rows, x) == Occurrences(rows[..|rows| - 1], x) + (if row == x then 1 else 0) by {
        forall x ensures Occurrences(rows, x) == Occurrences(rows[..|rows| - 1], x) + (if row == x then 1 else 0) {
          OccurrencesSnoc(rows[..|rows| - 1], row, x);
        }
      }
      if InReport(row, start, end) then
        assert forall x :: Occurrences(rest + [row], x) == Occurrences(rest, x) + (if row == x then 1 else 0) by {
          forall x ensures Occurrences(rest + [row], x) == Occurrences(rest, x) + (if row == x then 1 else 0) {
            OccurrencesSnoc(rest, row, x);
          }
        }
        rest + [row]
      else rest
  }

  /** The selection of joined rows is the joined selections, so the report keeps the sheet's order. */
  lemma {:induction false} SelectedConcat(a: seq<LogRow>, b: seq<LogRow>, start: Date, end: Date)
    ensures Selected(a + b, start, end) == Selected(a, start, end) + Selected(b, start, end)
    decreases |b|
  {
    if |b| == 0 {
      assert a + b == a;
    } else {
      var ab, init, row := a + b, b[..|b| - 1], b[|b| - 1];
      assert ab[..|ab| - 1] == a + init;
      assert ab[|ab| - 1] == row;
      SelectedConcat(a, init, start, end);
      SelectedLast(ab, start, end);
      SelectedLast(b, start, end);
      var last := if InReport(row, start, end) then [row] else [];
      Regroup(Selected(a, start, end), Selected(init, start, end), last, Selected(a + init, start, end),
              Selected(b, start, end));
    }
  }

  /** The selection of some rows is that of all but the last, then the last if it falls in the report. */
  lemma SelectedLast(rows: seq<LogRow>, start: Date, end: Date)
    requires |rows| > 0
    ensures var row := rows[|rows| - 1];
      Selected(rows, start, end) == Selected(rows[..|rows| - 1], start, end) + (if InReport(row, start, end) then [row] else [])
  {
  }

  /** A single row is selected exactly when it falls in the report. */
  lemma SelectedOne(row: LogRow, start: Date, end: Date)
    ensures Selected([row], start, end) == if InReport(row, start, end) then [row] else []
  {
    assert [row][..0] == [];
  }

  /** The cylinders bought by one NIK over some rows: the reference for a line's total. */
  function SumFor(rows: seq<LogRow>, nik: string): int
    decreases |rows|
  {
    if |rows| == 0 then 0
    else
      var row := rows[|rows| - 1];
      SumFor(rows[..|rows| - 1], nik) + (if row.noKTP == nik then QuantityOf(row) else 0)
  }

  /** `totalTabung`: the cylinders of all the rows. */
  function SumAll(rows: seq<LogRow>): int
    decreases |rows|
  {
    if |rows| == 0 then 0 else SumAll(rows[..|rows| - 1]) + QuantityOf(rows[|rows| - 1])
  }

  /** The sum of the lines' totals. */
  function SumTotals(lines: seq<Line>): int
    decreases |lines|
  {
    if |lines| == 0 then 0 else lines[0].total + SumTotals(lines[1..])
  }

  predicate HasLine(lines: seq<Line>, nik: string) {
    exists k :: 0 <= k < |lines| && lines[k].nik == nik
  }

  predicate DistinctNiks(lines: seq<Line>) {
    forall i, j :: 0 <= i < j < |lines| ==> lines[i].nik != lines[j].nik
  }

  /** Some row carries the NIK. */
  predicate Bought(rows: seq<LogRow>, nik: string) {
    exists j :: 0 <= j < |rows| && rows[j].noKTP == nik
  }

  /** `aggregated.get(nik)`: the position of the NIK's line, or `-1`. */
  function Find(lines: seq<Line>, nik: string): (k: int)
    ensures -1 <= k < |lines|
    ensures k >= 0 ==> lines[k].nik == nik
    ensures k < 0 ==> !HasLine(lines, nik)
    decreases |lines|
  {
    if |lines| == 0 then -1
    else if lines[|lines| - 1].nik == nik then |lines| - 1
    else Find(lines[..|lines| - 1], nik)
  }

  /**
   * The `forEach` that fills `aggregated`: a NIK already seen has the row's
   * cylinders added to its total; a new NIK gets a line with the row's name
   * and category, at the end.
   */
  function Aggregate(rows: seq<LogRow>): (lines: seq<Line>)
    ensures |lines| <= |rows|
    decreases |rows|
  {
    if |rows| == 0 then []
    else
      var lines := Aggregate(rows[..|rows| - 1]);
      var row := rows[|rows| - 1];
      var k := Find(lines, row.noKTP);
      if k >= 0 then lines[k := lines[k].(total := lines[k].total + QuantityOf(row))]
      else lines + [Line(row.noKTP, row.nama, row.customerTypes, QuantityOf(row))]
  }

  /**
   * One more row keeps every existing line's NIK, name and category, and
   * adds a line only for a NIK not seen before, built from that row.
   */
  lemma AggregateStep(rows: seq<LogRow>)
    requires |rows| > 0
    ensures var lines, r, row := Aggregate(rows[..|rows| - 1]), Aggregate(rows), rows[|rows| - 1];
      && |lines| <= |r| <= |lines| + 1
      && (forall k :: 0 <= k < |lines| ==>
            r[k].nik == lines[k].nik && r[k].nama == lines[k].nama && r[k].kategori == lines[k].kategori)
      && (|r| == |lines| + 1 ==> !HasLine(lines, row.noKTP) && r[|lines|] == Line(row.noKTP, row.nama, row.customerTypes, QuantityOf(row)))
  {
  }

  /** Each NIK has one line, and the NIKs with a line are exactly those of the rows. */
  lemma AggregateNiks(rows: seq<LogRow>)
    ensures DistinctNiks(Aggregate(rows))
    ensures forall nik :: HasLine(Aggregate(rows), nik) <==> Bought(rows, nik)
  {
    AggregateDistinct(rows);
    forall nik
      ensures HasLine(Aggregate(rows), nik) <==> Bought(rows, nik)
    {
      AggregateKeys(rows, nik);
    }
  }

  lemma {:induction false} AggregateDistinct(rows: seq<LogRow>)
    ensures DistinctNiks(Aggregate(rows))
    decreases |rows|
  {
    if |rows| > 0 {
      var lines, r := Aggregate(rows[..|rows| - 1]), Aggregate(rows);
      AggregateDistinct(rows[..|rows| - 1]);
      AggregateStep(rows);
      forall i, j | 0 <= i < j < |r|
        ensures r[i].nik != r[j].nik
      {
        if j == |lines| {
          assert r[i].nik == lines[i].nik;
        }
      }
    }
  }

  lemma {:induction false} AggregateKeys(rows: seq<LogRow>, nik: string)
    ensures HasLine(Aggregate(rows), nik) <==> Bought(rows, nik)
    decreases |rows|
  {
    if |rows| > 0 {
      var init, row := rows[..|rows| - 1], rows[|rows| - 1];
      var lines, r := Aggregate(init), Aggregate(rows);
      AggregateKeys(init, nik);
      AggregateStep(rows);
      assert forall j :: 0 <= j < |init| ==> rows[j] == init[j];
      if Bought(rows, nik) && nik != row.noKTP {
        var j :| 0 <= j < |rows| && rows[j].noKTP == nik;
        assert init[j].noKTP == nik;
      }
      if HasLine(lines, nik) {
        var i :| 0 <= i < |lines| && lines[i].nik == nik;
        assert r[i].nik == nik;
      }
      if HasLine(r, nik) && nik != row.noKTP {
        var i :| 0 <= i < |r| && r[i].nik == nik;
        assert lines[i].nik == nik;
      }
      if nik == row.noKTP && !HasLine(lines, nik) {
        assert r[|lines|].nik == nik;
      }
    }
  }

  /** Adding to one line's total adds the same to the sum of totals. */
  lemma {:induction false} SumTotalsUpdate(lines: seq<Line>, k: nat, q: int)
    requires k < |lines|
    ensures SumTotals(lines[k := lines[k].(total := lines[k].total + q)]) == SumTotals(lines) + q
    decreases |lines|
  {
    var r := lines[k := lines[k].(total := lines[k].total + q)];
    if k > 0 {
      assert r[1..] == lines[1..][k - 1 := lines[1..][k - 1].(total := lines[1..][k - 1].total + q)];
      SumTotalsUpdate(lines[1..], k - 1, q);
    } else {
      assert r[1..] == lines[1..];
    }
  }

  /** Appending a line adds its total. */
  lemma {:induction false} SumTotalsAppend(lines: seq<Line>, l: Line)
    ensures SumTotals(lines + [l]) == SumTotals(lines) + l.total
    decreases |lines|
  {
    if |lines| > 0 {
      assert (lines + [l])[1..] == lines[1..] + [l];
      SumTotalsAppend(lines[1..], l);
    }
  }

  /**
   * Each line's total is the cylinders its NIK bought, and the lines
   * together account for every cylinder (`totalTabung`).
   */
  lemma {:induction false} AggregateTotals(rows: seq<LogRow>)
    ensures forall k :: 0 <= k < |Aggregate(rows)| ==> Aggregate(rows)[k].total == SumFor(rows, Aggregate(rows)[k].nik)
    ensures SumTotals(Aggregate(rows)) == SumAll(rows)
    decreases |rows|
  {
    if |rows| > 0 {
      var init, row := rows[..|rows| - 1], rows[|rows| - 1];
      AggregateTotals(init);
      AggregateNiks(init);
      var lines := Aggregate(init);
      var k := Find(lines, row.noKTP);
      if k >= 0 {
        SumTotalsUpdate(lines, k, QuantityOf(row));
      } else {
        var l := Line(row.noKTP, row.nama, row.customerTypes, QuantityOf(row));
        SumTotalsAppend(lines, l);
        assert !Bought(init, row.noKTP);
        NoRowsNoSum(init, row.noKTP);
      }
    }
  }

  /** A NIK with no row bought nothing. */
  lemma {:induction false} NoRowsNoSum(rows: seq<LogRow>, nik: string)
    requires !Bought(rows, nik)
    ensures SumFor(rows, nik) == 0
    decreases |rows|
  {
    if |rows| > 0 {
      var init := rows[..|rows| - 1];
      assert forall j :: 0 <= j < |init| ==> init[j] == rows[j];
      NoRowsNoSum(init, nik);
    }
  }

  /** The row a NIK's line takes its name and category from: its first. */
  predicate FirstRowOf(rows: seq<LogRow>, l: Line, j: nat) {
    && j < |rows| && rows[j].noKTP == l.nik
    && l.nama == rows[j].nama && l.kategori == rows[j].customerTypes
    && forall i :: 0 <= i < j ==> rows[i].noKTP != l.nik
  }

  /** The line is named after some row that is its NIK's first. */
  predicate NamedAfterFirst(rows: seq<LogRow>, l: Line) {
    exists j: nat :: j < |rows| && FirstRowOf(rows, l, j)
  }

  /** Name and category of a line are those of its NIK's first row. */
  lemma {:induction false} AggregateNames(rows: seq<LogRow>, k: nat)
    requires k < |Aggregate(rows)|
    ensures NamedAfterFirst(rows, Aggregate(rows)[k])
    decreases |rows|
  {
    var init, row := rows[..|rows| - 1], rows[|rows| - 1];
    var lines := Aggregate(init);
    var l := Aggregate(rows)[k];
    AggregateStep(rows);
    assert forall i :: 0 <= i < |init| ==> rows[i] == init[i];
    if k < |lines| {
      AggregateNames(init, k);
      var j: nat :| j < |init| && FirstRowOf(init, lines[k], j);
      assert l.nik == lines[k].nik && l.nama == lines[k].nama && l.kategori == lines[k].kategori;
      forall i | 0 <= i < j
        ensures rows[i].noKTP != l.nik
      {
        assert rows[i] == init[i];
      }
      assert rows[j] == init[j];
      assert FirstRowOf(rows, l, j);
    } else {
      AggregateNiks(init);
      assert !Bought(init, row.noKTP);
      assert FirstRowOf(rows, l, |rows| - 1);
    }
  }

  /** `(a, b) => b[1].total - a[1].total`: ascending in the negated total. */
  function Descending(l: Line): int {
    -l.total
  }

  /** The report of one outlet's sheet over the chosen days. */
  function SalesReport(sheets: seq<Sheet>, storeName: string, start: Date, end: Date): (r: Summary)
    ensures forall i, j :: 0 <= i < j < |r.lines| ==> r.lines[i].total >= r.lines[j].total
    ensures r.uniqueCustomers == |r.lines|
  {
    var rows := Selected(SheetRows(sheets, SheetNameOf(storeName)), start, end);
    var aggregated := Aggregate(rows);
    var sorted := SortBy(aggregated, Descending);
    Summary(sorted, |aggregated|, SumAll(rows))
  }

  /** Inserting a line into the sorted list adds its total to the sum. */
  lemma {:induction false} SumTotalsInsert(x: Line, s: seq<Line>)
    ensures SumTotals(Insert(x, s, Descending)) == x.total + SumTotals(s)
    decreases |s|
  {
    if |s| > 0 && Descending(x) > Descending(s[0]) {
      var r := Insert(x, s, Descending);
      assert r[1..] == Insert(x, s[1..], Descending);
      SumTotalsInsert(x, s[1..]);
    }
  }

  /** Sorting does not change the sum of the totals. */
  lemma {:induction false} SumTotalsSorted(s: seq<Line>)
    ensures SumTotals(SortBy(s, Descending)) == SumTotals(s)
    decreases |s|
  {
    if |s| > 0 {
      SumTotalsSorted(s[1..]);
      SumTotalsInsert(s[0], SortBy(s[1..], Descending));
    }
  }

  /** The sorted lines are the aggregated ones: the same NIKs, each once, each line one of the originals. */
  lemma SortedLines(a: seq<Line>)
    requires DistinctNiks(a)
    ensures var b := SortBy(a, Descending);
      && DistinctNiks(b)
      && (forall nik :: HasLine(b, nik) <==> HasLine(a, nik))
      && (forall k :: 0 <= k < |b| ==> b[k] in a)
  {
    var b := SortBy(a, Descending);
    DistinctNiksPermutation(a, b);
    forall k | 0 <= k < |b|
      ensures b[k] in a
    {
      assert b[k] in multiset(a);
    }
    forall nik | HasLine(a, nik)
      ensures HasLine(b, nik)
    {
      var i :| 0 <= i < |a| && a[i].nik == nik;
      assert a[i] in multiset(b);
    }
  }

  /** The sorted lines of some rows: each its NIK's total, named after its first row. */
  lemma SortedLinesFaithful(rows: seq<LogRow>)
    ensures var sorted := SortBy(Aggregate(rows), Descending);
      && (forall k :: 0 <= k < |sorted| ==> sorted[k].total == SumFor(rows, sorted[k].nik))
      && (forall k :: 0 <= k < |sorted| ==> NamedAfterFirst(rows, sorted[k]))
  {
    var aggregated := Aggregate(rows);
    var sorted := SortBy(aggregated, Descending);
    AggregateNiks(rows);
    AggregateTotals(rows);
    SortedLines(aggregated);
    forall k | 0 <= k < |sorted|
      ensures sorted[k].total == SumFor(rows, sorted[k].nik)
      ensures NamedAfterFirst(rows, sorted[k])
    {
      var i :| 0 <= i < |aggregated| && sorted[k] == aggregated[i];
      AggregateNames(rows, i);
    }
  }

  /**
   * The report lists every customer of the period once, with the cylinders
   * they bought, the name and category of their first row, totals largest
   * first, customers with equal totals in order of first appearance, and
   * its grand total is the sum of the listed totals.
   */
  lemma SalesReportCorrect(sheets: seq<Sheet>, storeName: string, start: Date, end: Date)
    ensures var rows := Selected(SheetRows(sheets, SheetNameOf(storeName)), start, end);
      var r := SalesReport(sheets, storeName, start, end);
      && DistinctNiks(r.lines)
      && (forall nik :: HasLine(r.lines, nik) <==> Bought(rows, nik))
      && (forall k :: 0 <= k < |r.lines| ==> r.lines[k].total == SumFor(rows, r.lines[k].nik))
      && (forall k :: 0 <= k < |r.lines| ==> NamedAfterFirst(rows, r.lines[k]))
      && (forall t :: WithKey(r.lines, Descending, t) == WithKey(Aggregate(rows), Descending, t))
      && r.totalTabung == SumTotals(r.lines)
  {
    var rows := Selected(SheetRows(sheets, SheetNameOf(storeName)), start, end);
    var aggregated := Aggregate(rows);
    AggregateNiks(rows);
    AggregateTotals(rows);
    SumTotalsSorted(aggregated);
    SortedLines(aggregated);
    SortedLinesFaithful(rows);
    forall t {
      SortByStable(aggregated, Descending, t);
    }
  }

  /** A reordering of lines with distinct NIKs has distinct NIKs. */
  lemma DistinctNiksPermutation(a: seq<Line>, b: seq<Line>)
    requires multiset(a) == multiset(b) && DistinctNiks(a)
    ensures DistinctNiks(b)
  {
    forall i, j | 0 <= i < j < |b|
      ensures b[i].nik != b[j].nik
    {
      assert b[i] in multiset(a) && b[j] in multiset(a);
      var x :| 0 <= x < |a| && a[x] == b[i];
      var y :| 0 <= y < |a| && a[y] == b[j];
      if x == y {
        assert multiset(b)[b[i]] >= 2 by {
          assert b == b[..j] + [b[j]] + b[j + 1..];
          assert b[..j] == b[..i] + [b[i]] + b[i + 1..j];
        }
        DistinctMultisetLines(a, x);
      }
    }
  }

  /** A line of a list with distinct NIKs occurs in it once. */
  lemma DistinctMultisetLines(a: seq<Line>, x: nat)
    requires DistinctNiks(a) && x < |a|
    ensures multiset(a)[a[x]] == 1
  {
    DistinctMultiset(a);
    assert Distinct(a) by {
      forall i, j | 0 <= i < j < |a| ensures a[i] != a[j] { }
    }
    assert a[x] in multiset(a);
  }
}
