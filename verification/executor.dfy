/**
 * The execution loop of `runTransactionInputProcess` and the checks of
 * `runTransaksiLangsung`.
 *
 * Each plan entry goes through, in order: the NIK/quantity format check,
 * the stock check, NIK verification, the live monthly-limit check and the
 * transaction. A success takes its quantity off the stock and adds one to
 * the NIK's usage; every processed entry is logged and counted under
 * exactly one summary key. The loop stops right after the first entry
 * that leaves the stock at or below zero.
 *
 * The upstream answers are inputs: `verify` holds the NIKs the
 * verification endpoint accepts, and each entry comes with the reply its
 * transaction request would get.
 */
module Executor {
  import opened Wrappers
  import opened Text
  import opened Dates
  import opened Records
  import opened Ledger
  import opened SheetName

  /** The transaction endpoint's answer to one request. */
  datatype TxReply =
    | Accepted(transactionId: string)
    | AcceptedWithoutData
    | Rejected(message: string)

  /** What became of one entry, one constructor per status the log records. */
  datatype Outcome =
    | Done(transactionId: string)
    | SkippedFormat
    | SkippedStock
    | SkippedLimit(limit: int)
    | Failed(message: string)

  const VerifyFailedMessage: string := "Verifikasi NIK Gagal"
  const DefaultTxMessage: string := "TRANSACTION_INVALID"
  /** The error raised by reading `trxData.data.transactionId` when `data` is missing. */
  const MissingDataMessage: string := "Cannot read properties of undefined (reading 'transactionId')"
  const Unverified: string := "Akan diverifikasi"

  /** What the loop reads besides the plan: verifications, rules, the clock's text and the outlet. */
  datatype Env = Env(verify: map<string, Verification>, rules: Rules, now: string, storeName: string)

  /** The failure text of a rejected transaction: the service's message, or `TRANSACTION_INVALID` when it is empty. */
  function RejectionMessage(message: string): string {
    if message == "" then DefaultTxMessage else message
  }

  /** The entry's NIK is not sixteen digits or its quantity is missing or zero; a negative quantity passes. */
  predicate BadFormat(row: PlanRow) {
    row.quantity.None? || row.quantity.value == 0 || !IsNik(NikText(row.noKTP))
  }

  /** The monthly limit for a verified customer's type. */
  function LimitOf(env: Env, v: Verification): int {
    MonthlyLimit(env.rules, CategoryOf(v))
  }

  /** The entry passes the format and stock checks, so its NIK is sent for verification. */
  predicate Admitted(row: PlanRow, stock: int) {
    !BadFormat(row) && row.quantity.value <= stock
  }

  /** The NIK verifies and its usage is below its type's monthly limit. */
  predicate UnderLimit(env: Env, row: PlanRow, usage: map<string, nat>) {
    var nik := NikText(row.noKTP);
    nik in env.verify && Usage(usage, nik) < LimitOf(env, env.verify[nik])
  }

  /** The checks of one entry, in the program's order, against the current stock and usage. */
  function Decide(env: Env, row: PlanRow, reply: TxReply, stock: int, usage: map<string, nat>): (o: Outcome)
    ensures o.SkippedFormat? <==> BadFormat(row)
    ensures o.SkippedStock? <==> !BadFormat(row) && row.quantity.value > stock
    ensures o.Done? <==> Admitted(row, stock) && UnderLimit(env, row, usage) && reply.Accepted?
    ensures o.Done? ==> reply == Accepted(o.transactionId)
    ensures Admitted(row, stock) && NikText(row.noKTP) !in env.verify ==> o == Failed(VerifyFailedMessage)
    ensures Admitted(row, stock) && NikText(row.noKTP) in env.verify && !UnderLimit(env, row, usage) ==>
      o == SkippedLimit(LimitOf(env, env.verify[NikText(row.noKTP)]))
    ensures o.SkippedLimit? ==> Admitted(row, stock) && NikText(row.noKTP) in env.verify && !UnderLimit(env, row, usage)
    ensures Admitted(row, stock) && UnderLimit(env, row, usage) && reply.AcceptedWithoutData? ==> o == Failed(MissingDataMessage)
    ensures Admitted(row, stock) && UnderLimit(env, row, usage) && reply.Rejected? ==> o == Failed(RejectionMessage(reply.message))
  {
    var nik := NikText(row.noKTP);
    if BadFormat(row) then SkippedFormat
    else if row.quantity.value > stock then SkippedStock
    else if nik !in env.verify then Failed(VerifyFailedMessage)
    else
      var limit := LimitOf(env, env.verify[nik]);
      if Usage(usage, nik) >= limit then SkippedLimit(limit)
      else match reply
        case Accepted(id) => Done(id)
        case AcceptedWithoutData => Failed(MissingDataMessage)
        case Rejected(message) => Failed(RejectionMessage(message))
  }

  /** The `status` text written to the log row. */
  function StatusText(o: Outcome): string {
    match o
    case Done(id) => "Sukses - ID: " + id
    case SkippedFormat => "Dilewati - Format NIK/Quantity Salah"
    case SkippedStock => "Dilewati - Stok Tidak Cukup"
    case SkippedLimit(limit) => "Dilewati - Batas " + IntToString(limit) + " trx/bulan tercapai"
    case Failed(message) => "Gagal - " + message
  }

  /** Exactly the successful entries leave a row the usage scan counts as confirmed. */
  lemma StatusConfirmed(o: Outcome)
    ensures StartsWith(StatusText(o), "Sukses") <==> o.Done?
  {
    var t := StatusText(o);
    if !o.Done? {
      assert t[0] != 'S';
    }
  }

  /** The summary counters, one per key of `summary`. */
  datatype Summary = Summary(sukses: nat, gagalVerifikasi: nat, gagalTransaksi: nat, dilewati: nat)

  const NoEntries: Summary := Summary(0, 0, 0, 0)

  function Total(s: Summary): nat {
    s.sukses + s.gagalVerifikasi + s.gagalTransaksi + s.dilewati
  }

  /** The counter an outcome increments; a failure counts as a verification failure by its message alone. */
  function Tally(s: Summary, o: Outcome): (s': Summary)
    ensures Total(s') == Total(s) + 1
    ensures o.Done? ==> s' == s.(sukses := s.sukses + 1)
    ensures o == Failed(VerifyFailedMessage) ==> s' == s.(gagalVerifikasi := s.gagalVerifikasi + 1)
    ensures o.Failed? && o.message != VerifyFailedMessage ==> s' == s.(gagalTransaksi := s.gagalTransaksi + 1)
    ensures o.SkippedFormat? || o.SkippedStock? || o.SkippedLimit? ==> s' == s.(dilewati := s.dilewati + 1)
  {
    match o
    case Done(_) => s.(sukses := s.sukses + 1)
    case Failed(message) =>
      if message == VerifyFailedMessage then s.(gagalVerifikasi := s.gagalVerifikasi + 1)
      else s.(gagalTransaksi := s.gagalTransaksi + 1)
    case _ => s.(dilewati := s.dilewati + 1)
  }

  /** The row logged for an entry; name and type are filled in once the NIK verified. */
  function LogRowFor(env: Env, row: PlanRow, o: Outcome): (r: LogRow)
    ensures r.noKTP == NikText(row.noKTP) && r.quantity == row.quantity && r.tanggal == env.now
    ensures r.status == StatusText(o) && r.pangkalan == env.storeName
    ensures r.daily.None? && r.monthly.None? && r.family.None? && r.all.None?
    ensures var nik := NikText(row.noKTP);
      (o.Done? || o.SkippedLimit? || o.Failed?) && nik in env.verify ==>
        r.nama == env.verify[nik].name && r.customerTypes == TypeLabel(env.verify[nik])
    ensures !((o.Done? || o.SkippedLimit? || o.Failed?) && NikText(row.noKTP) in env.verify) ==>
      r.nama == Unverified && r.customerTypes == Unverified
  {
    var nik := NikText(row.noKTP);
    var verified := !o.SkippedFormat? && !o.SkippedStock? && nik in env.verify;
    LogRow(
      noKTP := nik,
      nama := if verified then env.verify[nik].name else Unverified,
      customerTypes := if verified then TypeLabel(env.verify[nik]) else Unverified,
      status := StatusText(o),
      tanggal := env.now,
      pangkalan := env.storeName,
      quantity := row.quantity,
      daily := None, monthly := None, family := None, all := None)
  }

  /**
   * The loop state: `currentStock`, `usageMap`, the outcome of every
   * processed entry (which the `summary` counters count) and the rows
   * logged so far.
   */
  datatype State = State(stock: int, usage: map<string, nat>, outcomes: seq<Outcome>, log: seq<LogRow>)

  /** The `summary` counters after the given outcomes, in order. */
  function Summarize(os: seq<Outcome>): (s: Summary)
    ensures Total(s) == |os|
    decreases |os|
  {
    if |os| == 0 then NoEntries else Tally(Summarize(os[..|os| - 1]), os[|os| - 1])
  }

  /** The number of successful outcomes. */
  function Successes(os: seq<Outcome>): nat
    decreases |os|
  {
    if |os| == 0 then 0 else Successes(os[..|os| - 1]) + (if os[|os| - 1].Done? then 1 else 0)
  }

  /** The `Sukses` counter counts exactly the successful outcomes. */
  lemma {:induction false} SummarizeSuccesses(os: seq<Outcome>)
    ensures Summarize(os).sukses == Successes(os)
    decreases |os|
  {
    if |os| > 0 {
      SummarizeSuccesses(os[..|os| - 1]);
    }
  }

  /** One iteration of the loop body. */
  function Step(env: Env, row: PlanRow, reply: TxReply, st: State): (st': State)
    ensures st'.outcomes == st.outcomes + [Decide(env, row, reply, st.stock, st.usage)]
    ensures |st'.log| == |st.log| + 1 && st'.log[..|st.log|] == st.log
    ensures st'.log[|st.log|] == LogRowFor(env, row, Decide(env, row, reply, st.stock, st.usage))
    ensures Decide(env, row, reply, st.stock, st.usage).Done? ==>
      var nik := NikText(row.noKTP);
      && st'.stock == st.stock - row.quantity.value
      && st'.usage == st.usage[nik := Usage(st.usage, nik) + 1]
    ensures !Decide(env, row, reply, st.stock, st.usage).Done? ==>
      st'.stock == st.stock && st'.usage == st.usage
  {
    var o := Decide(env, row, reply, st.stock, st.usage);
    var nik := NikText(row.noKTP);
    var logged := st.log + [LogRowFor(env, row, o)];
    if o.Done? then
      State(st.stock - row.quantity.value, st.usage[nik := Usage(st.usage, nik) + 1], st.outcomes + [o], logged)
    else
      State(st.stock, st.usage, st.outcomes + [o], logged)
  }

  /** The loop: every entry in order until the entries or the stock run out. */
  function Run(env: Env, plan: seq<PlanRow>, replies: seq<TxReply>, st: State): (r: State)
    requires |replies| == |plan|
    ensures |st.log| <= |r.log| <= |st.log| + |plan| && r.log[..|st.log|] == st.log
    ensures |plan| > 0 ==> |r.log| > |st.log|
    ensures |r.outcomes| - |st.outcomes| == |r.log| - |st.log| && r.outcomes[..|st.outcomes|] == st.outcomes
    decreases |plan|
  {
    if |plan| == 0 then st
    else
      var st1 := Step(env, plan[0], replies[0], st);
      if st1.stock <= 0 then st1 else Run(env, plan[1..], replies[1..], st1)
  }

  /** How many entries of the plan the loop processes. */
  function Processed(env: Env, plan: seq<PlanRow>, replies: seq<TxReply>, st: State): nat
    requires |replies| == |plan|
  {
    |Run(env, plan, replies, st).log| - |st.log|
  }

  // ---------------------------------------------------------------------
  // What a run does to the stock
  // ---------------------------------------------------------------------

  /** The units a log records as sold: the quantities of its confirmed rows. */
  function Sold(rows: seq<LogRow>): int
    decreases |rows|
  {
    if |rows| == 0 then 0
    else
      var last := rows[|rows| - 1];
      Sold(rows[..|rows| - 1]) + (if IsConfirmed(last) then last.quantity.GetOr(0) else 0)
  }

  /** The number of confirmed rows of a log. */
  function Confirmed(rows: seq<LogRow>): nat
    decreases |rows|
  {
    if |rows| == 0 then 0
    else Confirmed(rows[..|rows| - 1]) + (if IsConfirmed(rows[|rows| - 1]) then 1 else 0)
  }

  lemma StepAccounts(env: Env, row: PlanRow, reply: TxReply, st: State)
    ensures var st' := Step(env, row, reply, st);
      && st.stock - st'.stock == Sold(st'.log) - Sold(st.log)
      && Successes(st'.outcomes) - Successes(st.outcomes) == Confirmed(st'.log) - Confirmed(st.log)
      && (st.stock >= 0 ==> st'.stock >= 0)
  {
    var st' := Step(env, row, reply, st);
    StatusConfirmed(Decide(env, row, reply, st.stock, st.usage));
    assert st'.log[..|st'.log| - 1] == st.log;
    assert st'.outcomes[..|st'.outcomes| - 1] == st.outcomes;
  }

  /**
   * The stock a run uses up is exactly what its log records as sold, the
   * success counter grows with the confirmed rows, and a run that starts
   * with stock never ends below zero, so it never sells more than it had.
   */
  lemma {:induction false} RunAccountsForStock(env: Env, plan: seq<PlanRow>, replies: seq<TxReply>, st: State)
    requires |replies| == |plan|
    ensures var r := Run(env, plan, replies, st);
      && st.stock - r.stock == Sold(r.log) - Sold(st.log)
      && Successes(r.outcomes) - Successes(st.outcomes) == Confirmed(r.log) - Confirmed(st.log)
      && (st.stock >= 0 ==> r.stock >= 0 && Sold(r.log) - Sold(st.log) <= st.stock)
    decreases |plan|
  {
    if |plan| > 0 {
      var st1 := Step(env, plan[0], replies[0], st);
      StepAccounts(env, plan[0], replies[0], st);
      if st1.stock > 0 {
        RunAccountsForStock(env, plan[1..], replies[1..], st1);
      }
    }
  }

  /** Running a prefix of length `j` is one step followed, unless the stock ran out, by the shorter prefix. */
  lemma RunPrefix(env: Env, plan: seq<PlanRow>, replies: seq<TxReply>, st: State, j: nat)
    requires |replies| == |plan| && 1 <= j <= |plan|
    ensures var st1 := Step(env, plan[0], replies[0], st);
      Run(env, plan[..j], replies[..j], st) ==
        if st1.stock <= 0 then st1 else Run(env, plan[1..][..j - 1], replies[1..][..j - 1], st1)
  {
    assert plan[..j][0] == plan[0] && replies[..j][0] == replies[0];
    assert plan[..j][1..] == plan[1..][..j - 1];
    assert replies[..j][1..] == replies[1..][..j - 1];
  }

  /**
   * The run processes a prefix of the plan: it stops early only when the
   * stock is at or below zero, every shorter prefix leaves stock behind,
   * and the entries after the stop are neither attempted nor logged.
   */
  lemma {:induction false} RunStopsWhenStockRunsOut(env: Env, plan: seq<PlanRow>, replies: seq<TxReply>, st: State)
    requires |replies| == |plan|
    ensures var k := Processed(env, plan, replies, st);
      && (k < |plan| ==> Run(env, plan, replies, st).stock <= 0)
      && (forall j :: 1 <= j < k ==> Run(env, plan[..j], replies[..j], st).stock > 0)
      && Run(env, plan[..k], replies[..k], st) == Run(env, plan, replies, st)
    decreases |plan|
  {
    var k := Processed(env, plan, replies, st);
    if |plan| == 0 {
      assert plan[..k] == plan;
    } else {
      var st1 := Step(env, plan[0], replies[0], st);
      if st1.stock > 0 {
        RunStopsWhenStockRunsOut(env, plan[1..], replies[1..], st1);
        var k' := Processed(env, plan[1..], replies[1..], st1);
        assert k == k' + 1;
        forall j | 1 <= j < k
          ensures Run(env, plan[..j], replies[..j], st).stock > 0
        {
          RunPrefix(env, plan, replies, st, j);
          if j == 1 {
            assert plan[1..][..0] == [];
          }
        }
        RunPrefix(env, plan, replies, st, k);
      } else {
        RunPrefix(env, plan, replies, st, 1);
      }
    }
  }

  /** Each logged row belongs to the plan entry at the same position, in plan order. */
  lemma {:induction false} RunLogsEntriesInOrder(env: Env, plan: seq<PlanRow>, replies: seq<TxReply>, st: State, i: nat)
    requires |replies| == |plan|
    requires i < Processed(env, plan, replies, st)
    ensures var row := Run(env, plan, replies, st).log[|st.log| + i];
      row.noKTP == NikText(plan[i].noKTP) && row.quantity == plan[i].quantity && row.tanggal == env.now
    decreases |plan|
  {
    var st1 := Step(env, plan[0], replies[0], st);
    if i > 0 {
      RunLogsEntriesInOrder(env, plan[1..], replies[1..], st1, i - 1);
    }
  }

  /** A negative quantity passes every check and its success raises the stock. */
  lemma NegativeQuantityRaisesStock(env: Env, nik: string, q: int, id: string, st: State)
    requires IsNik(nik) && q < 0 && st.stock >= 0 && nik in env.verify
    requires Usage(st.usage, nik) < LimitOf(env, env.verify[nik])
    ensures var st' := Step(env, PlanRow(Some(nik), Some(q)), Accepted(id), st);
      st'.stock == st.stock - q > st.stock && st'.outcomes == st.outcomes + [Done(id)]
  {
    var row := PlanRow(Some(nik), Some(q));
    assert NikText(row.noKTP) == nik;
    assert Decide(env, row, Accepted(id), st.stock, st.usage) == Done(id);
  }

  // ---------------------------------------------------------------------
  // What a run does to the monthly usage
  // ---------------------------------------------------------------------

  function Max(a: int, b: int): int {
    if a < b then b else a
  }

  /** The highest usage a run can leave a NIK at, from usage `u`: its limit, or `u` if already above. */
  function Cap(env: Env, nik: string, u: nat): int {
    if nik in env.verify then Max(u, LimitOf(env, env.verify[nik])) else u
  }

  /**
   * A run never takes a NIK past its monthly limit, never lowers a usage,
   * and leaves the usage of a NIK that is not in the plan untouched.
   */
  lemma {:induction false} RunRespectsLimit(env: Env, plan: seq<PlanRow>, replies: seq<TxReply>, st: State, nik: string)
    requires |replies| == |plan|
    ensures var u := Usage(Run(env, plan, replies, st).usage, nik);
      && Usage(st.usage, nik) <= u <= Cap(env, nik, Usage(st.usage, nik))
      && ((forall i :: 0 <= i < |plan| ==> NikText(plan[i].noKTP) != nik) ==> u == Usage(st.usage, nik))
    decreases |plan|
  {
    if |plan| > 0 {
      var st1 := Step(env, plan[0], replies[0], st);
      assert Usage(st.usage, nik) <= Usage(st1.usage, nik) <= Cap(env, nik, Usage(st.usage, nik));
      if st1.stock > 0 {
        RunRespectsLimit(env, plan[1..], replies[1..], st1, nik);
        if forall i :: 0 <= i < |plan| ==> NikText(plan[i].noKTP) != nik {
          assert forall i :: 0 <= i < |plan| - 1 ==> plan[1..][i] == plan[i + 1];
        }
      }
    }
  }

  /** The stamp's date falls in `month`. */
  predicate InMonth(stamp: string, month: int) {
    ParseDate(stamp).Some? && ParseDate(stamp).value.month == month
  }

  lemma StepKeepsLedger(env: Env, row: PlanRow, reply: TxReply, st: State, history: seq<LogRow>, month: int)
    requires InMonth(env.now, month)
    requires UsageMap(history + st.log, month) == st.usage
    ensures var st' := Step(env, row, reply, st); UsageMap(history + st'.log, month) == st'.usage
  {
    var st' := Step(env, row, reply, st);
    var o := Decide(env, row, reply, st.stock, st.usage);
    StatusConfirmed(o);
    var all := history + st'.log;
    assert all[..|all| - 1] == history + st.log;
    assert CountsInMonth(all[|all| - 1], month) <==> o.Done?;
  }

  /**
   * While the clock stays in the scanned month, the live usage map is what
   * a fresh scan of the outlet's log, with the run's rows appended, gives.
   */
  lemma {:induction false} RunKeepsLedger(env: Env, plan: seq<PlanRow>, replies: seq<TxReply>, st: State,
                                          history: seq<LogRow>, month: int)
    requires |replies| == |plan|
    requires InMonth(env.now, month)
    requires UsageMap(history + st.log, month) == st.usage
    ensures var r := Run(env, plan, replies, st); UsageMap(history + r.log, month) == r.usage
    decreases |plan|
  {
    if |plan| > 0 {
      var st1 := Step(env, plan[0], replies[0], st);
      StepKeepsLedger(env, plan[0], replies[0], st, history, month);
      if st1.stock > 0 {
        RunKeepsLedger(env, plan[1..], replies[1..], st1, history, month);
      }
    }
  }

  // ---------------------------------------------------------------------
  // The summary and the remaining stock
  // ---------------------------------------------------------------------

  /** The summary object's keys with their counters, in the order they were created. */
  function Entries(s: Summary): seq<(string, nat)> {
    [ ("Sukses", s.sukses),
      ("Gagal (Verifikasi)", s.gagalVerifikasi),
      ("Gagal (Transaksi)", s.gagalTransaksi),
      ("Dilewati (Batas/Stok/Format)", s.dilewati) ]
  }

  /** The `sisaStok` loop: the counters of every key whose lower-cased text does not contain `sukses`. */
  function Remainder(entries: seq<(string, nat)>): nat
    decreases |entries|
  {
    if |entries| == 0 then 0
    else
      var here := if Contains(ToLower(entries[0].0), "sukses") then 0 else entries[0].1;
      here + Remainder(entries[1..])
  }

  function SisaStok(s: Summary): nat {
    Remainder(Entries(s))
  }

  /** A key without the letter u, in either case, never counts as a success key. */
  lemma KeyWithoutU(key: string)
    requires 'u' !in key && 'U' !in key
    ensures !Contains(ToLower(key), "sukses")
  {
    assert 'u' !in ToLower(key);
    AbsentCharNotContained(ToLower(key), "sukses", 'u', 1);
  }

  lemma SuccessKey()
    ensures Contains(ToLower("Sukses"), "sukses")
  {
    assert ToLower("Sukses") == "sukses";
    assert StartsWith("sukses", "sukses");
  }

  /** The remaining stock is the number of entries that failed or were skipped. */
  lemma SisaStokCountsUnsuccessful(s: Summary)
    ensures SisaStok(s) == Total(s) - s.sukses
    ensures SisaStok(s) == s.gagalVerifikasi + s.gagalTransaksi + s.dilewati
  {
    var es := Entries(s);
    SuccessKey();
    KeyWithoutU(es[1].0);
    KeyWithoutU(es[2].0);
    KeyWithoutU(es[3].0);
    var t1, t2, t3 := es[1..], es[2..], es[3..];
    assert t1[1..] == t2 && t2[1..] == t3 && t3[1..] == [];
    assert Remainder(t3) == s.dilewati;
    assert Remainder(t2) == s.gagalTransaksi + s.dilewati;
    assert Remainder(t1) == s.gagalVerifikasi + s.gagalTransaksi + s.dilewati;
  }

  // ---------------------------------------------------------------------
  // The whole run
  // ---------------------------------------------------------------------

  /**
   * `runTransactionInputProcess` once the files are read: `None` when the
   * product information could not be loaded, otherwise the loop's final
   * state, started from the product's stock and this month's usage of the
   * outlet's log.
   */
  function Execute(env: Env, stockAvailable: Option<int>, sheets: seq<Sheet>, storeName: string, month: int,
                   plan: seq<PlanRow>, replies: seq<TxReply>): (r: Option<State>)
    requires |replies| == |plan|
    ensures r.None? <==> stockAvailable.None?
  {
    if stockAvailable.None? then None
    else Some(Run(env, plan, replies, Begin(stockAvailable.value, OutletLog(sheets, storeName), month)))
  }

  /** The rows of the outlet's own sheet of the master log: the one named after its store. */
  function OutletLog(sheets: seq<Sheet>, storeName: string): seq<LogRow> {
    SheetRows(sheets, SheetNameOf(storeName))
  }

  /** The loop's initial state: the product's stock, this month's usage of the outlet, no entries. */
  function Begin(stock: int, history: seq<LogRow>, month: int): State {
    State(stock, UsageMap(history, month), [], [])
  }

  /** A run started with an empty log and zero counters logs one row per processed entry and counts each once. */
  lemma RunFromStart(env: Env, plan: seq<PlanRow>, replies: seq<TxReply>, st: State)
    requires |replies| == |plan| && st.log == [] && st.outcomes == []
    ensures var r := Run(env, plan, replies, st);
      && |r.log| <= |plan| && (|plan| > 0 ==> |r.log| > 0)
      && |r.outcomes| == |r.log|
  {
  }

  /** The `sisaStok` the run returns; an aborted run returns zero. */
  function Remaining(r: Option<State>): nat {
    match r
    case None => 0
    case Some(st) => SisaStok(Summarize(st.outcomes))
  }

  /**
   * A run started with an empty log and zero counters reports as successes
   * exactly its confirmed log rows and as remaining stock the other
   * processed entries, and, when it starts with stock, sells no more than
   * that stock.
   */
  lemma RunReportsCounts(env: Env, plan: seq<PlanRow>, replies: seq<TxReply>, st: State)
    requires |replies| == |plan|
    requires st.log == [] && st.outcomes == []
    ensures var r := Run(env, plan, replies, st);
      && Successes(r.outcomes) == Confirmed(r.log)
      && (st.stock >= 0 ==> Sold(r.log) <= st.stock)
  {
    assert Successes(st.outcomes) == 0 && Confirmed(st.log) == 0 && Sold(st.log) == 0;
    RunAccountsForStock(env, plan, replies, st);
  }

  /**
   * A run started from the usage of the outlet's log keeps, while the
   * clock stays in the scanned month, its usage map equal to a fresh scan
   * of the log with the run's rows appended.
   */
  lemma RunReportsLedger(env: Env, plan: seq<PlanRow>, replies: seq<TxReply>, st: State, history: seq<LogRow>, month: int)
    requires |replies| == |plan| && InMonth(env.now, month)
    requires st.log == [] && st.usage == UsageMap(history, month)
    ensures var r := Run(env, plan, replies, st); UsageMap(history + r.log, month) == r.usage
  {
    assert history + st.log == history;
    RunKeepsLedger(env, plan, replies, st, history, month);
  }

  /** The counters of a state whose outcomes match its log row for row. */
  lemma FinalCounts(st: State)
    requires |st.outcomes| == |st.log| && Successes(st.outcomes) == Confirmed(st.log)
    ensures Summarize(st.outcomes).sukses == Confirmed(st.log)
    ensures Remaining(Some(st)) == |st.log| - Confirmed(st.log)
  {
    SummarizeSuccesses(st.outcomes);
    SisaStokCountsUnsuccessful(Summarize(st.outcomes));
  }

  /**
   * What a finished run reports: its successes are its confirmed log rows,
   * the remaining stock counts the other processed entries, and it sells
   * no more than the stock it started with.
   */
  lemma ExecuteReports(env: Env, stockAvailable: Option<int>, sheets: seq<Sheet>, storeName: string, month: int,
                       plan: seq<PlanRow>, replies: seq<TxReply>)
    requires |replies| == |plan|
    ensures var r := Execute(env, stockAvailable, sheets, storeName, month, plan, replies);
      && (r.None? ==> Remaining(r) == 0)
      && (r.Some? ==>
        && Summarize(r.value.outcomes).sukses == Confirmed(r.value.log)
        && Remaining(r) == |r.value.log| - Confirmed(r.value.log)
        && (stockAvailable.value >= 0 ==> Sold(r.value.log) <= stockAvailable.value))
  {
    if stockAvailable.Some? {
      var history := OutletLog(sheets, storeName);
      var st := Begin(stockAvailable.value, history, month);
      var r := Run(env, plan, replies, st);
      RunFromStart(env, plan, replies, st);
      RunReportsCounts(env, plan, replies, st);
      FinalCounts(r);
    }
  }

  /**
   * While the clock stays in the scanned month, a finished run's usage map
   * is what a fresh scan of the outlet's own sheet, with the run's rows
   * appended, gives.
   */
  lemma ExecuteKeepsLedger(env: Env, stockAvailable: Option<int>, sheets: seq<Sheet>, storeName: string, month: int,
                           plan: seq<PlanRow>, replies: seq<TxReply>)
    requires |replies| == |plan| && InMonth(env.now, month)
    ensures var r := Execute(env, stockAvailable, sheets, storeName, month, plan, replies);
      r.Some? ==> UsageMap(OutletLog(sheets, storeName) + r.value.log, month) == r.value.usage
  {
    if stockAvailable.Some? {
      var history := OutletLog(sheets, storeName);
      var st := Begin(stockAvailable.value, history, month);
      assert st.log == [] && st.usage == UsageMap(history, month);
      RunReportsLedger(env, plan, replies, st, history, month);
    }
  }

  // ---------------------------------------------------------------------
  // The on-the-spot transaction
  // ---------------------------------------------------------------------

  datatype DirectError =
    | ProductsUnavailable
    | StockShort
    | NotRegistered
    | LimitReached(limit: int)
    | TxFailed(message: string)

  /** The confirmed transaction, the row appended to the outlet's log, and the stock it reports left. */
  datatype Receipt = Receipt(transactionId: string, row: LogRow, stockLeft: int)

  /**
   * The message printed after `Gagal: `. A transport failure of the product
   * request, which the program prints with the HTTP client's own text, is
   * not distinguished from an unsuccessful reply.
   */
  function DirectMessage(e: DirectError): string {
    match e
    case ProductsUnavailable => "Gagal memuat info produk/stok."
    case StockShort => "Stok tidak cukup untuk transaksi ini."
    case NotRegistered => "Verifikasi NIK Gagal / NIK tidak terdaftar"
    case LimitReached(limit) => "Batas " + IntToString(limit) + " transaksi/bulan untuk pelanggan ini sudah tercapai."
    case TxFailed(message) => message
  }

  /**
   * `runTransaksiLangsung` for a NIK and quantity the prompt accepted: the
   * stock check, this month's usage of the outlet's log, verification,
   * the limit and the transaction, stopping at the first failure.
   */
  function Direct(env: Env, nik: string, quantity: int, stockAvailable: Option<int>,
                  history: seq<LogRow>, month: int, reply: TxReply): (r: Result<Receipt, DirectError>)
    requires IsNik(nik) && quantity > 0
    ensures r.Success? ==>
      && stockAvailable.Some? && quantity <= stockAvailable.value
      && r.value.stockLeft == stockAvailable.value - quantity
      && nik in env.verify
      && Usage(UsageMap(history, month), nik) < LimitOf(env, env.verify[nik])
      && reply == Accepted(r.value.transactionId)
      && r.value.row.noKTP == nik && r.value.row.quantity == Some(quantity)
      && IsConfirmed(r.value.row)
    ensures r.Failure? && r.error == StockShort <==> stockAvailable.Some? && quantity > stockAvailable.value
  {
    if stockAvailable.None? then Failure(ProductsUnavailable)
    else if quantity > stockAvailable.value then Failure(StockShort)
    else if nik !in env.verify then Failure(NotRegistered)
    else
      var limit := LimitOf(env, env.verify[nik]);
      if Usage(UsageMap(history, month), nik) >= limit then Failure(LimitReached(limit))
      else match reply
        case Accepted(id) =>
          StatusConfirmed(Done(id));
          Success(Receipt(id, LogRowFor(env, PlanRow(Some(nik), Some(quantity)), Done(id)), stockAvailable.value - quantity))
        case AcceptedWithoutData => Failure(TxFailed(MissingDataMessage))
        case Rejected(message) => Failure(TxFailed(RejectionMessage(message)))
  }

  /** The plan-loop outcome a direct transaction's result corresponds to. */
  function AsOutcome(r: Result<Receipt, DirectError>): Outcome {
    match r
    case Success(rc) => Done(rc.transactionId)
    case Failure(StockShort) => SkippedStock
    case Failure(NotRegistered) => Failed(VerifyFailedMessage)
    case Failure(LimitReached(limit)) => SkippedLimit(limit)
    case Failure(TxFailed(message)) => Failed(message)
    case Failure(ProductsUnavailable) => Failed("")
  }

  /**
   * The on-the-spot transaction makes the same decision the plan loop
   * makes for the same entry against the same stock and log, and on
   * success logs the same row.
   */
  lemma DirectAgreesWithLoop(env: Env, nik: string, quantity: int, stock: int,
                             history: seq<LogRow>, month: int, reply: TxReply)
    requires IsNik(nik) && quantity > 0
    ensures var entry := PlanRow(Some(nik), Some(quantity));
      var r := Direct(env, nik, quantity, Some(stock), history, month, reply);
      var o := Decide(env, entry, reply, stock, UsageMap(history, month));
      && AsOutcome(r) == o
      && (r.Success? ==> r.value.row == LogRowFor(env, entry, o))
  {
    var entry := PlanRow(Some(nik), Some(quantity));
    assert NikText(entry.noKTP) == nik;
    assert !BadFormat(entry);
  }
}
