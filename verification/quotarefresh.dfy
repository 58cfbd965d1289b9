/**
 * `runCekAndUpdateKuotaLog`: collect every NIK in every outlet sheet of the
 * master log, ask the upstream service for each one's verification and
 * quota, and copy the four quota figures onto every row of a NIK that got
 * an answer. Nothing else in the workbook changes.
 */
module QuotaRefresh {
  import opened Wrappers
  import opened Records
  import opened Api
  import opened Sorting
  import opened Planner

  /** Some row of some sheet carries this NIK. */
  predicate InLog(sheets: seq<Sheet>, nik: string) {
    exists i, j :: 0 <= i < |sheets| && 0 <= j < |sheets[i].rows| && sheets[i].rows[j].noKTP == nik
  }

  /** `uniqueNikSet.add(...)` over a run of rows: the NIKs not yet seen are appended in order. */
  function AddNiks(seen: seq<string>, rows: seq<LogRow>): (r: seq<string>)
    ensures |seen| <= |r| && r[..|seen|] == seen
    ensures Distinct(seen) ==> Distinct(r)
    ensures forall n :: n in r <==> n in seen || exists j :: 0 <= j < |rows| && rows[j].noKTP == n
    decreases |rows|
  {
    if |rows| == 0 then seen
    else
      var nik := rows[0].noKTP;
      var seen' := if nik in seen then seen else seen + [nik];
      DistinctSnoc(seen, nik);
      var r := AddNiks(seen', rows[1..]);
      assert r[..|seen|] == r[..|seen'|][..|seen|];
      assert forall j :: 0 < j < |rows| ==> rows[j] == rows[1..][j - 1];
      r
  }

  /** A NIK is in the log when it is in the first sheet or in the rest. */
  lemma InLogSplit(sheets: seq<Sheet>)
    requires |sheets| > 0
    ensures forall n :: InLog(sheets, n) <==>
      (exists j :: 0 <= j < |sheets[0].rows| && sheets[0].rows[j].noKTP == n) || InLog(sheets[1..], n)
  {
    forall n | InLog(sheets, n)
      ensures (exists j :: 0 <= j < |sheets[0].rows| && sheets[0].rows[j].noKTP == n) || InLog(sheets[1..], n)
    {
      var i, j :| 0 <= i < |sheets| && 0 <= j < |sheets[i].rows| && sheets[i].rows[j].noKTP == n;
      if i > 0 { assert sheets[1..][i - 1] == sheets[i]; }
    }
    forall n | InLog(sheets[1..], n)
      ensures InLog(sheets, n)
    {
      var i, j :| 0 <= i < |sheets[1..]| && 0 <= j < |sheets[1..][i].rows| && sheets[1..][i].rows[j].noKTP == n;
      assert sheets[i + 1] == sheets[1..][i];
    }
  }

  /** The same, sheet after sheet. */
  function GatherNiks(seen: seq<string>, sheets: seq<Sheet>): (r: seq<string>)
    ensures |seen| <= |r| && r[..|seen|] == seen
    ensures Distinct(seen) ==> Distinct(r)
    ensures forall n :: n in r <==> n in seen || InLog(sheets, n)
    decreases |sheets|
  {
    if |sheets| == 0 then seen
    else
      var seen' := AddNiks(seen, sheets[0].rows);
      var r := GatherNiks(seen', sheets[1..]);
      assert r[..|seen|] == r[..|seen'|][..|seen|];
      InLogSplit(sheets);
      r
  }

  /** `Array.from(uniqueNikSet)`: every NIK of the log once, in order of first appearance. */
  function AllNiks(sheets: seq<Sheet>): (niks: seq<string>)
    ensures Distinct(niks)
    ensures forall n :: n in niks <==> InLog(sheets, n)
  {
    GatherNiks([], sheets)
  }

  /** The quota fetched for one NIK: none without a verification, else `getQuota`'s answer. */
  function Fetch(up: Upstream, nik: string): Option<Quota> {
    if nik in up.verify then GetQuota(up.verify[nik], Get(up.quota, nik)) else None
  }

  /** `updatedQuotaMap`: the NIKs among `niks` whose fetch returned a quota. */
  function FreshQuotas(up: Upstream, niks: seq<string>): (m: map<string, Quota>)
    ensures forall n :: n in m <==> n in niks && Fetch(up, n).Some?
    ensures forall n :: n in m ==> Some(m[n]) == Fetch(up, n)
    decreases |niks|
  {
    if |niks| == 0 then map[]
    else
      var init, nik := niks[..|niks| - 1], niks[|niks| - 1];
      assert forall n :: n in niks <==> n in init || n == nik;
      var m := FreshQuotas(up, init);
      match Fetch(up, nik)
      case Some(q) => m[nik := q]
      case None => m
  }

  /** A row's NIK got a fresh quota: the four quota columns take its values. */
  function RefreshRow(quotas: map<string, Quota>, row: LogRow): LogRow {
    if row.noKTP in quotas then
      var q := quotas[row.noKTP];
      row.(daily := Some(q.daily), monthly := Some(q.monthly), family := Some(q.family), all := Some(q.all))
    else row
  }

  /** Everything of a row except its four quota columns. */
  function WithoutQuota(row: LogRow): LogRow {
    row.(daily := None, monthly := None, family := None, all := None)
  }

  /** The quota columns of a row as they stand after the refresh. */
  predicate ShowsQuota(row: LogRow, q: Quota) {
    row.daily == Some(q.daily) && row.monthly == Some(q.monthly) && row.family == Some(q.family) && row.all == Some(q.all)
  }

  function RefreshRows(quotas: map<string, Quota>, rows: seq<LogRow>): (r: seq<LogRow>)
    ensures |r| == |rows|
    ensures forall j :: 0 <= j < |rows| ==> r[j] == RefreshRow(quotas, rows[j])
  {
    seq(|rows|, j requires 0 <= j < |rows| => RefreshRow(quotas, rows[j]))
  }

  function RefreshSheets(quotas: map<string, Quota>, sheets: seq<Sheet>): (r: seq<Sheet>)
    ensures |r| == |sheets|
    ensures forall i :: 0 <= i < |sheets| ==> r[i] == Sheet(sheets[i].name, RefreshRows(quotas, sheets[i].rows))
  {
    seq(|sheets|, i requires 0 <= i < |sheets| => Sheet(sheets[i].name, RefreshRows(quotas, sheets[i].rows)))
  }

  /**
   * The whole command: with no NIK in the log it returns early and the
   * workbook is left as it is; otherwise every sheet is rewritten with the
   * fresh quotas folded in.
   */
  function RefreshLog(up: Upstream, sheets: seq<Sheet>): (r: seq<Sheet>)
    ensures |r| == |sheets|
    ensures forall i :: 0 <= i < |sheets| ==> r[i].name == sheets[i].name && |r[i].rows| == |sheets[i].rows|
  {
    var niks := AllNiks(sheets);
    if |niks| == 0 then sheets else RefreshSheets(FreshQuotas(up, niks), sheets)
  }

  /**
   * Row by row, the refresh changes at most the four quota columns; it sets
   * them exactly on the rows whose NIK was verified and got a quota, to that
   * quota, and leaves every other row as it was.
   */
  lemma RefreshLogRows(up: Upstream, sheets: seq<Sheet>, i: nat, j: nat)
    requires i < |sheets| && j < |sheets[i].rows|
    ensures var row, row' := sheets[i].rows[j], RefreshLog(up, sheets)[i].rows[j];
      && WithoutQuota(row') == WithoutQuota(row)
      && (Fetch(up, row.noKTP).Some? ==> ShowsQuota(row', Fetch(up, row.noKTP).value))
      && (Fetch(up, row.noKTP).None? ==> row' == row)
  {
    var row := sheets[i].rows[j];
    assert InLog(sheets, row.noKTP);
    var niks := AllNiks(sheets);
    assert row.noKTP in niks;
  }

  /** Refreshing twice with the same answers is refreshing once. */
  lemma RefreshSheetsIdempotent(quotas: map<string, Quota>, sheets: seq<Sheet>)
    ensures RefreshSheets(quotas, RefreshSheets(quotas, sheets)) == RefreshSheets(quotas, sheets)
  {
    var once := RefreshSheets(quotas, sheets);
    var twice := RefreshSheets(quotas, once);
    forall i | 0 <= i < |sheets|
      ensures twice[i] == once[i]
    {
      assert RefreshRows(quotas, once[i].rows) == once[i].rows;
    }
  }

  /** The refresh only ever moves the quota columns to the answers; the NIKs it touches stay in the log. */
  lemma RefreshKeepsNiks(up: Upstream, sheets: seq<Sheet>, nik: string)
    ensures InLog(RefreshLog(up, sheets), nik) <==> InLog(sheets, nik)
  {
    var r := RefreshLog(up, sheets);
    if InLog(sheets, nik) {
      var i, j :| 0 <= i < |sheets| && 0 <= j < |sheets[i].rows| && sheets[i].rows[j].noKTP == nik;
      RefreshLogRows(up, sheets, i, j);
      assert r[i].rows[j].noKTP == nik;
    }
    if InLog(r, nik) {
      var i, j :| 0 <= i < |r| && 0 <= j < |r[i].rows| && r[i].rows[j].noKTP == nik;
      RefreshLogRows(up, sheets, i, j);
      assert sheets[i].rows[j].noKTP == nik;
    }
  }
}
