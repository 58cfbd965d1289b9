/**
 * Calendar dates as the program reads them back from its transaction log.
 *
 * A log row's `tanggal_transaksi` is the `id-ID` locale text
 * `d/m/yyyy, hh.mm.ss`. The program keeps the text before the first comma,
 * splits it on `/`, reverses the pieces, joins them with `-` and hands the
 * result to `new Date`. The model reads the same three pieces directly and
 * returns `None` where JavaScript would produce an invalid date (`NaN`),
 * which compares unequal and unordered with everything.
 */
module Dates {
  import opened Wrappers
  import opened Text

  datatype Date = Date(day: nat, month: nat, year: nat)

  predicate ValidDate(d: Date) {
    1 <= d.day <= 31 && 1 <= d.month <= 12
  }

  /** The date part of a timestamp: the text before its first comma. */
  function DatePart(stamp: string): string {
    Split(stamp, ',')[0]
  }

  /** Reads the `d/m/y` date at the start of a log timestamp. */
  function ParseDate(stamp: string): (r: Option<Date>)
    ensures r.Some? ==> ValidDate(r.value)
  {
    var parts := Split(DatePart(stamp), '/');
    if |parts| == 3 && IsNumeral(parts[0]) && IsNumeral(parts[1]) && IsNumeral(parts[2]) then
      var d := Date(ParseNat(parts[0]), ParseNat(parts[1]), ParseNat(parts[2]));
      if ValidDate(d) then Some(d) else None
    else
      None
  }

  /** The `d/m/yyyy` text the `id-ID` locale prints for a date. */
  function FormatDate(d: Date): string {
    NatToString(d.day) + "/" + NatToString(d.month) + "/" + NatToString(d.year)
  }

  /** A timestamp as the program writes it: the date, a comma, then the time of day. */
  function Stamp(d: Date, time: string): string {
    FormatDate(d) + ", " + time
  }

  lemma NumeralHasNoSeparator(s: string, c: char)
    requires AllDigits(s) && !IsDigit(c)
    ensures c !in s
  {
  }

  /** Reading back a timestamp the program wrote gives the date it was written with. */
  lemma ParseStamp(d: Date, time: string)
    requires ValidDate(d)
    ensures ParseDate(Stamp(d, time)) == Some(d)
  {
    var ds, ms, ys := NatToString(d.day), NatToString(d.month), NatToString(d.year);
    NumeralHasNoSeparator(ds, ','); NumeralHasNoSeparator(ms, ',');
    NumeralHasNoSeparator(ys, ',');
    NumeralHasNoSeparator(ds, '/'); NumeralHasNoSeparator(ms, '/');
    NumeralHasNoSeparator(ys, '/');
    var text := FormatDate(d);
    assert ',' !in text;
    assert Stamp(d, time) == text + [','] + (" " + time);
    SplitAtFirst(text, ',', " " + time);
    assert DatePart(Stamp(d, time)) == text;
    assert text == ds + ['/'] + (ms + "/" + ys);
    SplitAtFirst(ds, '/', ms + "/" + ys);
    assert ms + "/" + ys == ms + ['/'] + ys;
    SplitAtFirst(ms, '/', ys);
    SplitNoSeparator(ys, '/');
    assert Split(text, '/') == [ds, ms, ys];
    ParseNatToString(d.day); ParseNatToString(d.month); ParseNatToString(d.year);
  }

  /** A day number that orders valid dates chronologically. */
  function DayKey(d: Date): int {
    (d.year * 12 + d.month) * 31 + d.day
  }

  /** Inclusive date-range membership, `start <= d <= end` on whole days. */
  predicate InRange(d: Date, start: Date, end: Date) {
    DayKey(start) <= DayKey(d) <= DayKey(end)
  }

  /** The day key orders valid dates lexicographically by (year, month, day). */
  lemma DayKeyOrder(a: Date, b: Date)
    requires ValidDate(a) && ValidDate(b)
    ensures DayKey(a) < DayKey(b) <==>
      a.year < b.year || (a.year == b.year && (a.month < b.month || (a.month == b.month && a.day < b.day)))
  {
    if a.year < b.year {
      assert a.year * 12 + a.month < b.year * 12 + b.month;
    } else if a.year > b.year {
      assert a.year * 12 + a.month > b.year * 12 + b.month;
    }
  }
}
