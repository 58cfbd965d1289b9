/**
 * The two computations of the terminal interface that are not display:
 * `formatWaktuProses`, the elapsed-time text, and the "Total" row of
 * `tampilkanTabelRingkasan`.
 */
module Ui {
  import opened Text
  import opened Executor

  // ---------------------------------------------------------------------
  // formatWaktuProses
  // ---------------------------------------------------------------------

  /** Whole hours, minutes and seconds. */
  datatype Duration = Duration(hours: nat, minutes: nat, seconds: nat)

  /** `secs = floor(ms / 1000)`, then hours, then the minutes and seconds left over. */
  function Breakdown(ms: nat): (d: Duration)
    ensures d.hours * 3600 + d.minutes * 60 + d.seconds == ms / 1000
    ensures d.minutes < 60 && d.seconds < 60
  {
    var secs := ms / 1000;
    var left := secs % 3600;
    Duration(secs / 3600, left / 60, left % 60)
  }

  /** One printed part: a count and its unit. */
  datatype Part = Part(count: nat, unit: string)

  /**
   * `parts`: hours when there are any, minutes when there are any, and
   * seconds when there are any or nothing was printed before them.
   */
  function Parts(d: Duration): (ps: seq<Part>)
    ensures |ps| >= 1
    ensures Part(d.hours, "jam") in ps <==> d.hours > 0
    ensures Part(d.minutes, "menit") in ps <==> d.minutes > 0
    ensures Part(d.seconds, "detik") in ps <==> d.seconds > 0 || (d.hours == 0 && d.minutes == 0)
    ensures forall i, j :: 0 <= i < j < |ps| ==> UnitSeconds(ps[i].unit) > UnitSeconds(ps[j].unit)
  {
    var hs := if d.hours > 0 then [Part(d.hours, "jam")] else [];
    var ms := if d.minutes > 0 then [Part(d.minutes, "menit")] else [];
    var ss := if d.seconds > 0 || |hs + ms| == 0 then [Part(d.seconds, "detik")] else [];
    hs + ms + ss
  }

  function PartText(p: Part): string {
    NatToString(p.count) + " " + p.unit
  }

  function PartTexts(ps: seq<Part>): (ts: seq<string>)
    ensures |ts| == |ps|
    decreases |ps|
  {
    if |ps| == 0 then [] else [PartText(ps[0])] + PartTexts(ps[1..])
  }

  /** `formatWaktuProses(ms)`: milliseconds below a second, else the parts joined by spaces. */
  function FormatWaktuProses(ms: int): (r: string)
    ensures ms < 1000 ==> r == IntToString(ms) + " milidetik"
  {
    if ms < 1000 then IntToString(ms) + " milidetik"
    else Join(PartTexts(Parts(Breakdown(ms))), " ")
  }

  /** The seconds a unit stands for. */
  function UnitSeconds(unit: string): nat {
    if unit == "jam" then 3600 else if unit == "menit" then 60 else if unit == "detik" then 1 else 0
  }

  /** Reads `count unit count unit ...` words back as a number of seconds. */
  function ReadWords(words: seq<string>): nat
    decreases |words|
  {
    if |words| < 2 then 0
    else (if AllDigits(words[0]) then ParseNat(words[0]) * UnitSeconds(words[1]) else 0) + ReadWords(words[2..])
  }

  /** Reads an elapsed-time text back as a number of seconds. */
  function ReadDuration(text: string): nat {
    ReadWords(Split(text, ' '))
  }

  /** The words of some parts, count then unit, part after part. */
  function Words(ps: seq<Part>): seq<string>
    decreases |ps|
  {
    if |ps| == 0 then [] else [NatToString(ps[0].count), ps[0].unit] + Words(ps[1..])
  }

  predicate KnownUnits(ps: seq<Part>) {
    forall k :: 0 <= k < |ps| ==> ps[k].unit in {"jam", "menit", "detik"}
  }

  /** Neither a count nor a known unit contains a space. */
  lemma PartHasNoSpace(p: Part)
    requires p.unit in {"jam", "menit", "detik"}
    ensures ' ' !in NatToString(p.count) && ' ' !in p.unit
  {
    var num := NatToString(p.count);
    forall i | 0 <= i < |num|
      ensures num[i] != ' '
    {
      assert IsDigit(num[i]);
    }
  }

  /** A part's text splits into its count and its unit. */
  lemma SplitPart(p: Part)
    requires p.unit in {"jam", "menit", "detik"}
    ensures Split(PartText(p), ' ') == [NatToString(p.count), p.unit]
  {
    PartHasNoSpace(p);
    SplitAtFirst(NatToString(p.count), ' ', p.unit);
    SplitNoSeparator(p.unit, ' ');
  }

  /** A part's text followed by more text splits into its count, its unit and the pieces of the rest. */
  lemma SplitPartThen(p: Part, rest: string)
    requires p.unit in {"jam", "menit", "detik"}
    ensures Split(PartText(p) + " " + rest, ' ') == [NatToString(p.count), p.unit] + Split(rest, ' ')
  {
    var num, unit := NatToString(p.count), p.unit;
    var tail := unit + [' '] + rest;
    assert PartText(p) + " " + rest == num + [' '] + tail by {
      assert PartText(p) == num + [' '] + unit;
    }
    PartHasNoSpace(p);
    SplitAtFirst(num, ' ', tail);
    SplitAtFirst(unit, ' ', rest);
  }

  /** Splitting the joined parts on spaces gives their words. */
  lemma {:induction false} SplitParts(ps: seq<Part>)
    requires |ps| >= 1 && KnownUnits(ps)
    ensures Split(Join(PartTexts(ps), " "), ' ') == Words(ps)
    decreases |ps|
  {
    var ts := PartTexts(ps);
    assert ts[0] == PartText(ps[0]) && ts[1..] == PartTexts(ps[1..]);
    if |ps| == 1 {
      SplitPart(ps[0]);
    } else {
      assert KnownUnits(ps[1..]) by {
        forall k | 0 <= k < |ps[1..]| ensures ps[1..][k].unit in {"jam", "menit", "detik"} { assert ps[1..][k] == ps[k + 1]; }
      }
      SplitParts(ps[1..]);
      SplitPartThen(ps[0], Join(PartTexts(ps[1..]), " "));
    }
  }

  /** The seconds the parts stand for. */
  function PartSeconds(ps: seq<Part>): nat
    decreases |ps|
  {
    if |ps| == 0 then 0 else ps[0].count * UnitSeconds(ps[0].unit) + PartSeconds(ps[1..])
  }

  lemma {:induction false} ReadWordsParts(ps: seq<Part>)
    ensures ReadWords(Words(ps)) == PartSeconds(ps)
    decreases |ps|
  {
    if |ps| > 0 {
      var ws := Words(ps);
      assert ws[2..] == Words(ps[1..]);
      ParseNatToString(ps[0].count);
      ReadWordsParts(ps[1..]);
    }
  }

  lemma {:induction false} PartSecondsConcat(a: seq<Part>, b: seq<Part>)
    ensures PartSeconds(a + b) == PartSeconds(a) + PartSeconds(b)
    decreases |a|
  {
    if |a| == 0 {
      assert a + b == b;
    } else {
      assert (a + b)[0] == a[0];
      assert (a + b)[1..] == a[1..] + b;
      PartSecondsConcat(a[1..], b);
    }
  }

  /** The parts omit only zero counts, so they add up to the whole duration. */
  lemma PartsAddUp(d: Duration)
    ensures PartSeconds(Parts(d)) == d.hours * 3600 + d.minutes * 60 + d.seconds
    ensures KnownUnits(Parts(d))
  {
    var hs := if d.hours > 0 then [Part(d.hours, "jam")] else [];
    var ms := if d.minutes > 0 then [Part(d.minutes, "menit")] else [];
    var ss := if d.seconds > 0 || |hs + ms| == 0 then [Part(d.seconds, "detik")] else [];
    PartSecondsConcat(hs + ms, ss);
    PartSecondsConcat(hs, ms);
  }

  /** From one second on, reading the printed text back gives the elapsed whole seconds. */
  lemma FormatReadsBack(ms: int)
    requires ms >= 1000
    ensures ReadDuration(FormatWaktuProses(ms)) == ms / 1000
  {
    var ps := Parts(Breakdown(ms));
    PartsAddUp(Breakdown(ms));
    SplitParts(ps);
    ReadWordsParts(ps);
  }

  // ---------------------------------------------------------------------
  // The "Total" row of tampilkanTabelRingkasan
  // ---------------------------------------------------------------------

  /** The rows the table shows: the entries whose count is not zero, in order. */
  function ShownRows(entries: seq<(string, int)>): (rows: seq<(string, int)>)
    ensures forall e :: e in rows <==> e in entries && e.1 != 0
    decreases |entries|
  {
    if |entries| == 0 then []
    else
      assert forall e :: e in entries <==> e == entries[0] || e in entries[1..];
      (if entries[0].1 == 0 then [] else [entries[0]]) + ShownRows(entries[1..])
  }

  function SumCounts(entries: seq<(string, int)>): int
    decreases |entries|
  {
    if |entries| == 0 then 0 else entries[0].1 + SumCounts(entries[1..])
  }

  /** `total`: the counts of the shown rows. */
  function TableTotal(entries: seq<(string, int)>): int {
    SumCounts(ShownRows(entries))
  }

  /** Leaving out the zero rows does not change the total: it is the sum of every count. */
  lemma {:induction false} TableTotalIsSum(entries: seq<(string, int)>)
    ensures TableTotal(entries) == SumCounts(entries)
    decreases |entries|
  {
    if |entries| > 0 {
      TableTotalIsSum(entries[1..]);
      var head := if entries[0].1 == 0 then [] else [entries[0]];
      SumCountsConcat(head, ShownRows(entries[1..]));
    }
  }

  lemma {:induction false} SumCountsConcat(a: seq<(string, int)>, b: seq<(string, int)>)
    ensures SumCounts(a + b) == SumCounts(a) + SumCounts(b)
    decreases |a|
  {
    if |a| == 0 {
      assert a + b == b;
    } else {
      assert (a + b)[0] == a[0];
      assert (a + b)[1..] == a[1..] + b;
      SumCountsConcat(a[1..], b);
    }
  }

  /** The "Total" row shows the sum of the four counters. */
  lemma SummaryTableTotal(s: Summary)
    ensures TableTotal(Entries(s)) == Total(s)
  {
    var e0 := Entries(s);
    var e1, e2, e3 := e0[1..], e0[2..], e0[3..];
    TableTotalIsSum(e0);
    assert e1[1..] == e2 && e2[1..] == e3 && e3[1..] == [];
    assert SumCounts(e3) == s.dilewati;
    assert SumCounts(e2) == s.gagalTransaksi + SumCounts(e3);
    assert SumCounts(e1) == s.gagalVerifikasi + SumCounts(e2);
  }

  /** After a run the "Total" row shows the number of entries processed. */
  lemma RunTableTotal(os: seq<Outcome>)
    ensures TableTotal(Entries(Summarize(os))) == |os|
  {
    SummaryTableTotal(Summarize(os));
  }
}
