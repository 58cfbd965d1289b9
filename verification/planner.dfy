/**
 * The plan builders `buatRencanaTransaksi` and `alokasiSisaStok`: from
 * the NIKs that transacted this month at any outlet, keep those the
 * upstream service still verifies, whose monthly quota is positive and
 * whose usage at this outlet is below their type's limit; order them by
 * that usage (least first, ties in scan order) and give the first `n` of
 * them one unit each.
 */
module Planner {
  import opened Wrappers
  import opened Records
  import opened Api
  import opened Ledger
  import opened Sorting
  import opened SheetName

  /** The upstream answers for each NIK: a verification (absent: `null`) and a quota reply (absent: the request threw). */
  datatype Upstream = Upstream(verify: map<string, Verification>, quota: map<string, QuotaReply>)

  /**
   * Step 1 of both builders: the two-level usage map of the whole log and
   * the NIKs that transacted this month, in the order the scan met them.
   */
  datatype Scan = Scan(usage: map<string, map<string, nat>>, niks: NikSet)

  /** `Array.from(uniqueNikSet)`: a list without repeats. */
  type NikSet = s: seq<string> | Distinct(s)

  /** Step 1 of both builders: one pass over every sheet of the master log. */
  function ScanLog(sheets: seq<Sheet>, month: int): Scan {
    var es := Flatten(sheets);
    Scan(GlobalUsage(es, month), CountedNiks(es, month))
  }

  /**
   * The scan lists each NIK with a counted row in some sheet, and its usage
   * at a sheet is the number of its counted rows there.
   */
  lemma ScanLogCounts(sheets: seq<Sheet>, month: int)
    ensures var sc, es := ScanLog(sheets, month), Flatten(sheets);
      && (forall n :: n in sc.niks <==>
            exists k :: 0 <= k < |es| && es[k].1.noKTP == n && CountsInMonth(es[k].1, month))
      && (forall nik, sheet :: OutletUsage(sc.usage, nik, sheet) == CountFor(RowsAt(es, sheet), nik, month))
  {
    GlobalUsageCountsAll(Flatten(sheets), month);
  }

  /** What the filtering step reads: the scan, this outlet's sheet name, the upstream answers and the rules. */
  datatype PlanInput = PlanInput(scan: Scan, outlet: string, up: Upstream, rules: Rules)

  /** An eligible customer with its usage at this outlet. */
  datatype Candidate = Candidate(nik: string, usage: nat)

  function UsageKey(c: Candidate): int {
    c.usage
  }

  function Min(a: nat, b: nat): nat {
    if a < b then a else b
  }

  /** A NIK's usage at the builder's outlet this month. */
  function UsageHere(pin: PlanInput, nik: string): nat {
    OutletUsage(pin.scan.usage, nik, pin.outlet)
  }

  /** The NIKs the builder checks, in scan order. */
  function ScannedNiks(pin: PlanInput): seq<string> {
    pin.scan.niks
  }

  /** Verified, positive monthly quota, and below the type's limit at this outlet. */
  predicate IsEligible(pin: PlanInput, nik: string) {
    && nik in pin.up.verify
    && var v := pin.up.verify[nik];
       var q := GetQuota(v, Get(pin.up.quota, nik));
       && q.Some? && q.value.monthly > 0
       && UsageHere(pin, nik) < MonthlyLimit(pin.rules, CategoryOf(v))
  }

  /** A NIK the builder may pick: scanned, not excluded, eligible. */
  predicate IsCandidate(pin: PlanInput, exclude: set<string>, nik: string) {
    nik in ScannedNiks(pin) && nik !in exclude && IsEligible(pin, nik)
  }

  /** A collected entry: a candidate NIK paired with its usage here. */
  predicate IsCandidateEntry(pin: PlanInput, niks: seq<string>, exclude: set<string>, c: Candidate) {
    c.nik in niks && c.nik !in exclude && IsEligible(pin, c.nik) && c.usage == UsageHere(pin, c.nik)
  }

  /** The loop over the scanned NIKs that collects `eligibleCustomers`. */
  function Collect(pin: PlanInput, niks: seq<string>, exclude: set<string>): (cs: seq<Candidate>)
    ensures forall c :: c in cs ==> IsCandidateEntry(pin, niks, exclude, c)
    ensures forall n :: n in niks && n !in exclude && IsEligible(pin, n) ==>
      Candidate(n, UsageHere(pin, n)) in cs
    ensures Distinct(niks) ==> Distinct(cs)
    decreases |niks|
  {
    if |niks| == 0 then []
    else
      var rest := Collect(pin, niks[1..], exclude);
      var nik := niks[0];
      assert forall n :: n in niks <==> n == nik || n in niks[1..];
      assert Distinct(niks) ==> Distinct(niks[1..]) && nik !in niks[1..];
      if nik !in exclude && IsEligible(pin, nik) then
        var c := Candidate(nik, UsageHere(pin, nik));
        assert forall x :: x in [c] + rest <==> x == c || x in rest;
        assert Distinct(niks) ==> c !in rest;
        if Distinct(niks) then DistinctCons(c, rest); [c] + rest else [c] + rest
      else rest
  }

  /** The NIKs of the collected candidates, in their order. */
  function CandidateNiks(cs: seq<Candidate>): seq<string> {
    if |cs| == 0 then [] else [cs[0].nik] + CandidateNiks(cs[1..])
  }

  /** `eligibleCustomers` meets the NIKs in the order of the list it scans. */
  lemma {:induction false} CollectKeepsScanOrder(pin: PlanInput, niks: seq<string>, exclude: set<string>)
    ensures IsSubsequence(CandidateNiks(Collect(pin, niks, exclude)), niks)
    decreases |niks|
  {
    if |niks| > 0 {
      var rest := Collect(pin, niks[1..], exclude);
      CollectKeepsScanOrder(pin, niks[1..], exclude);
      var cs := Collect(pin, niks, exclude);
      if cs != rest {
        assert cs[1..] == rest;
      }
    }
  }

  /** The first `n` candidates once they are stably sorted by usage, least first. */
  function Pick(cs: seq<Candidate>, n: nat): (picked: seq<Candidate>)
    ensures |picked| == Min(n, |cs|)
    ensures multiset(picked) <= multiset(cs)
    ensures SortedBy(picked, UsageKey)
    ensures forall c, i :: c in multiset(cs) - multiset(picked) && 0 <= i < |picked| ==>
      UsageKey(picked[i]) <= UsageKey(c)
  {
    SortedPrefix(cs, UsageKey, Min(n, |cs|))
  }

  /** The plan rows written to the plan file: `{ noKTP, quantity: 1 }`. */
  function ToRows(cs: seq<Candidate>): (rows: seq<PlanRow>)
    ensures |rows| == |cs|
    ensures forall i :: 0 <= i < |cs| ==> rows[i] == PlanRow(Some(cs[i].nik), Some(1))
  {
    seq(|cs|, i requires 0 <= i < |cs| => PlanRow(Some(cs[i].nik), Some(1)))
  }

  /** The NIK of a plan row the builder wrote. */
  function RowNik(r: PlanRow): string {
    NikText(r.noKTP)
  }

  /** The candidates a builder picks, before they become plan rows. */
  function Picked(pin: PlanInput, exclude: set<string>, n: nat): seq<Candidate> {
    Pick(Collect(pin, ScannedNiks(pin), exclude), n)
  }

  lemma PickedAreCandidates(pin: PlanInput, exclude: set<string>, n: nat)
    ensures var picked := Picked(pin, exclude, n);
      forall i :: 0 <= i < |picked| ==>
        IsCandidate(pin, exclude, picked[i].nik) && picked[i].usage == UsageHere(pin, picked[i].nik)
  {
    var cs := Collect(pin, ScannedNiks(pin), exclude);
    var picked := Pick(cs, n);
    SubMultisetMembers(picked, cs);
    forall i | 0 <= i < |picked|
      ensures IsCandidateEntry(pin, ScannedNiks(pin), exclude, picked[i])
    {
      assert picked[i] in cs;
    }
  }

  lemma PickedDistinct(pin: PlanInput, exclude: set<string>, n: nat)
    ensures var picked := Picked(pin, exclude, n);
      forall i, j :: 0 <= i < j < |picked| ==> picked[i].nik != picked[j].nik
  {
    var cs := Collect(pin, ScannedNiks(pin), exclude);
    var picked := Picked(pin, exclude, n);
    SubMultisetDistinct(cs, picked);
    PickedAreCandidates(pin, exclude, n);
    forall i, j | 0 <= i < j < |picked|
      ensures picked[i].nik != picked[j].nik
    {
      assert picked[i] != picked[j];
    }
  }

  lemma PickedLeastUsed(pin: PlanInput, exclude: set<string>, n: nat, nik: string)
    requires IsCandidate(pin, exclude, nik)
    requires forall k :: 0 <= k < |Picked(pin, exclude, n)| ==> Picked(pin, exclude, n)[k].nik != nik
    ensures var picked := Picked(pin, exclude, n);
      forall i :: 0 <= i < |picked| ==> picked[i].usage <= UsageHere(pin, nik)
  {
    var cs := Collect(pin, ScannedNiks(pin), exclude);
    var picked := Picked(pin, exclude, n);
    var c := Candidate(nik, UsageHere(pin, nik));
    assert c in multiset(cs);
    assert c !in multiset(picked);
    assert c in multiset(cs) - multiset(picked);
    forall i | 0 <= i < |picked|
      ensures picked[i].usage <= UsageHere(pin, nik)
    {
      assert UsageKey(picked[i]) <= UsageKey(c);
    }
  }

  /**
   * What a builder's plan for `n` units is: `min(n, #candidates)` rows, each
   * a candidate NIK with quantity 1, in non-decreasing usage, without a
   * repeated NIK, and no candidate left out used less than a planned one.
   */
  ghost predicate IsPlan(pin: PlanInput, exclude: set<string>, n: nat, plan: seq<PlanRow>) {
    && |plan| == Min(n, |Collect(pin, ScannedNiks(pin), exclude)|)
    && (forall i :: 0 <= i < |plan| ==>
          plan[i].noKTP.Some? && plan[i].quantity == Some(1) && IsCandidate(pin, exclude, RowNik(plan[i])))
    && (forall i, j :: 0 <= i < j < |plan| ==> UsageHere(pin, RowNik(plan[i])) <= UsageHere(pin, RowNik(plan[j])))
    && (forall i, j :: 0 <= i < j < |plan| ==> plan[i].noKTP != plan[j].noKTP)
    && (forall nik, i :: IsCandidate(pin, exclude, nik) && PlanRow(Some(nik), Some(1)) !in plan && 0 <= i < |plan| ==>
          UsageHere(pin, RowNik(plan[i])) <= UsageHere(pin, nik))
  }

  /**
   * The common body of both builders: the first `n` candidates by usage,
   * NIKs in `exclude` left out, one unit each.
   */
  function BuildPlan(pin: PlanInput, exclude: set<string>, n: nat): (plan: seq<PlanRow>)
    ensures IsPlan(pin, exclude, n, plan)
  {
    PlanRowsAreCandidates(pin, exclude, n);
    PlanRowsSorted(pin, exclude, n);
    PlanRowsDistinct(pin, exclude, n);
    PlanRowsLeastUsed(pin, exclude, n);
    ToRows(Picked(pin, exclude, n))
  }

  lemma PlanRowsAreCandidates(pin: PlanInput, exclude: set<string>, n: nat)
    ensures var plan := ToRows(Picked(pin, exclude, n));
      forall i :: 0 <= i < |plan| ==>
        plan[i].noKTP.Some? && plan[i].quantity == Some(1) && IsCandidate(pin, exclude, RowNik(plan[i]))
  {
    PickedAreCandidates(pin, exclude, n);
  }

  lemma PlanRowsSorted(pin: PlanInput, exclude: set<string>, n: nat)
    ensures var plan := ToRows(Picked(pin, exclude, n));
      forall i, j :: 0 <= i < j < |plan| ==> UsageHere(pin, RowNik(plan[i])) <= UsageHere(pin, RowNik(plan[j]))
  {
    var picked := Picked(pin, exclude, n);
    PickedAreCandidates(pin, exclude, n);
    assert forall i, j :: 0 <= i < j < |picked| ==> UsageKey(picked[i]) <= UsageKey(picked[j]);
  }

  lemma PlanRowsDistinct(pin: PlanInput, exclude: set<string>, n: nat)
    ensures var plan := ToRows(Picked(pin, exclude, n));
      forall i, j :: 0 <= i < j < |plan| ==> plan[i].noKTP != plan[j].noKTP
  {
    PickedDistinct(pin, exclude, n);
  }

  lemma PlanRowsLeastUsed(pin: PlanInput, exclude: set<string>, n: nat)
    ensures var plan := ToRows(Picked(pin, exclude, n));
      forall nik, i :: IsCandidate(pin, exclude, nik) && PlanRow(Some(nik), Some(1)) !in plan && 0 <= i < |plan| ==>
        UsageHere(pin, RowNik(plan[i])) <= UsageHere(pin, nik)
  {
    var picked := Picked(pin, exclude, n);
    var plan := ToRows(picked);
    PickedAreCandidates(pin, exclude, n);
    forall nik | IsCandidate(pin, exclude, nik) && PlanRow(Some(nik), Some(1)) !in plan
      ensures forall i :: 0 <= i < |plan| ==> UsageHere(pin, RowNik(plan[i])) <= UsageHere(pin, nik)
    {
      forall k | 0 <= k < |picked| ensures picked[k].nik != nik {
        assert plan[k] == PlanRow(Some(picked[k].nik), Some(1));
      }
      PickedLeastUsed(pin, exclude, n, nik);
    }
  }

  /** The filtering input of a builder run at the outlet `storeName`. */
  function Prepare(sheets: seq<Sheet>, month: int, storeName: string, up: Upstream, rules: Rules): PlanInput {
    PlanInput(ScanLog(sheets, month), SheetNameOf(storeName), up, rules)
  }

  /**
   * The usage a builder ranks by is the executor's usage at the same
   * outlet: the count of this month's confirmed rows in the outlet's sheet.
   */
  lemma PreparedUsageIsLedger(sheets: seq<Sheet>, month: int, storeName: string, up: Upstream, rules: Rules, nik: string)
    requires DistinctNames(sheets)
    ensures var pin := Prepare(sheets, month, storeName, up, rules);
      UsageHere(pin, nik) == Usage(UsageMap(SheetRows(sheets, SheetNameOf(storeName)), month), nik)
  {
    OutletUsageAgrees(sheets, month, nik, SheetNameOf(storeName));
  }

  /** Some NIK the builder may pick. */
  ghost predicate HasCandidate(pin: PlanInput, exclude: set<string>) {
    exists nik :: IsCandidate(pin, exclude, nik)
  }

  /** The collected list is empty exactly when no NIK is a candidate. */
  lemma CollectEmptyIff(pin: PlanInput, exclude: set<string>)
    ensures |Collect(pin, ScannedNiks(pin), exclude)| == 0 <==> !HasCandidate(pin, exclude)
  {
    var cs := Collect(pin, ScannedNiks(pin), exclude);
    if |cs| > 0 {
      assert cs[0] in cs;
      assert IsCandidate(pin, exclude, cs[0].nik);
    }
    if HasCandidate(pin, exclude) {
      var nik :| IsCandidate(pin, exclude, nik);
      assert Candidate(nik, UsageHere(pin, nik)) in cs;
    }
  }

  /**
   * A builder run: `None` when no customer qualifies, in which case the
   * program writes no plan file at all; otherwise the plan it writes.
   */
  function WritePlan(pin: PlanInput, exclude: set<string>, n: nat): (plan: Option<seq<PlanRow>>)
    ensures plan.None? <==> !HasCandidate(pin, exclude)
    ensures plan.Some? ==> IsPlan(pin, exclude, n, plan.value)
  {
    CollectEmptyIff(pin, exclude);
    if |Collect(pin, ScannedNiks(pin), exclude)| == 0 then None else Some(BuildPlan(pin, exclude, n))
  }

  /**
   * `buatRencanaTransaksi`: the day's plan for `totalStock` units, or
   * `None` when no customer qualifies and the previous plan file is left
   * as it was.
   */
  function InitialPlan(sheets: seq<Sheet>, month: int, storeName: string, up: Upstream, rules: Rules, totalStock: nat)
    : (plan: Option<seq<PlanRow>>)
    ensures var pin := Prepare(sheets, month, storeName, up, rules);
      && (plan.None? <==> !HasCandidate(pin, {}))
      && (plan.Some? ==> IsPlan(pin, {}, totalStock, plan.value))
  {
    WritePlan(Prepare(sheets, month, storeName, up, rules), {}, totalStock)
  }

  /** `niksSudahProses`: the NIK text of every row of the executed plan, and nothing else. */
  function ProcessedNiks(executed: seq<PlanRow>): (done: set<string>)
    ensures forall n :: n in done <==> exists r :: r in executed && NikText(r.noKTP) == n
  {
    set r | r in executed :: NikText(r.noKTP)
  }

  /**
   * `alokasiSisaStok`: a replacement plan for the `sisaStok` units left
   * over that leaves out every NIK of the executed plan, or `None` when no
   * other customer qualifies and no replacement file is written.
   */
  function ReplacementPlan(sheets: seq<Sheet>, month: int, storeName: string, up: Upstream, rules: Rules,
                           sisaStok: nat, executed: seq<PlanRow>): (plan: Option<seq<PlanRow>>)
    ensures var pin, done := Prepare(sheets, month, storeName, up, rules), ProcessedNiks(executed);
      && (plan.None? <==> !HasCandidate(pin, done))
      && (plan.Some? ==> IsPlan(pin, done, sisaStok, plan.value))
    ensures plan.Some? ==>
      forall i, r :: 0 <= i < |plan.value| && r in executed ==> RowNik(plan.value[i]) != NikText(r.noKTP)
  {
    WritePlan(Prepare(sheets, month, storeName, up, rules), ProcessedNiks(executed), sisaStok)
  }

  /** With no more candidates than units, every candidate gets into the plan. */
  lemma PlanTakesAllWhenStockSuffices(pin: PlanInput, exclude: set<string>, n: nat, nik: string)
    requires |Collect(pin, ScannedNiks(pin), exclude)| <= n
    requires IsCandidate(pin, exclude, nik)
    ensures PlanRow(Some(nik), Some(1)) in BuildPlan(pin, exclude, n)
  {
    var niks := ScannedNiks(pin);
    var cs := Collect(pin, niks, exclude);
    var picked := Pick(cs, n);
    var c := Candidate(nik, UsageHere(pin, nik));
    assert c in cs;
    assert |picked| == |cs|;
    assert multiset(picked) == multiset(cs) by {
      MultisetSubEqual(picked, cs);
    }
    assert c in multiset(picked);
    var k :| 0 <= k < |picked| && picked[k] == c;
    assert BuildPlan(pin, exclude, n)[k] == PlanRow(Some(nik), Some(1));
  }

  lemma MultisetSubEqual<T>(a: seq<T>, b: seq<T>)
    requires multiset(a) <= multiset(b) && |a| == |b|
    ensures multiset(a) == multiset(b)
  {
    var d := multiset(b) - multiset(a);
    assert multiset(b) == multiset(a) + d;
    assert |multiset(b)| == |multiset(a)| + |d|;
  }

  /**
   * Ties are broken by scan order: among candidates with the same usage,
   * those in the plan are the first ones in the order the scan met them.
   */
  lemma PlanTiesInScanOrder(pin: PlanInput, exclude: set<string>, n: nat, usage: int)
    ensures var cs := Collect(pin, ScannedNiks(pin), exclude);
      var p := WithKey(Pick(cs, n), UsageKey, usage);
      var all := WithKey(cs, UsageKey, usage);
      |p| <= |all| && p == all[..|p|]
  {
    var cs := Collect(pin, ScannedNiks(pin), exclude);
    var sorted := SortBy(cs, UsageKey);
    SortByStable(cs, UsageKey, usage);
    WithKeyPrefix(sorted, UsageKey, usage, Min(n, |cs|));
  }
}
