/**
 * `runValidasiRencana`: the plan-file check. Every row is checked for a
 * well-formed NIK, a NIK already seen on an earlier row, and a positive
 * quantity, in that order; each failed check adds one error naming the
 * spreadsheet line (the row's index plus two, after the header).
 */
module Validation {
  import opened Wrappers
  import opened Text
  import opened Records

  datatype Problem = BadNik | DuplicateNik | BadQuantity

  /** One error: spreadsheet line, the NIK cell as reported, and the problem. */
  datatype ValidationError = ValidationError(line: nat, nik: Option<string>, problem: Problem)

  /** `row.noKTP` is present, non-empty and sixteen digits. */
  predicate NikOk(cell: Option<string>) {
    cell.Some? && IsNik(cell.value)
  }

  /** `row.quantity` is a number above zero. */
  predicate QuantityOk(q: Option<int>) {
    q.Some? && q.value > 0
  }

  /** The NIK cells of the rows before row `i`. */
  function Earlier(rows: seq<PlanRow>, i: nat): set<Option<string>>
    requires i <= |rows|
    decreases i
  {
    if i == 0 then {} else Earlier(rows, i - 1) + {rows[i - 1].noKTP}
  }

  /** A cell is among the earlier ones exactly when some earlier row holds it. */
  lemma {:induction false} EarlierHolds(rows: seq<PlanRow>, i: nat, cell: Option<string>)
    requires i <= |rows|
    ensures cell in Earlier(rows, i) <==> exists j :: 0 <= j < i && rows[j].noKTP == cell
    decreases i
  {
    if i > 0 {
      EarlierHolds(rows, i - 1, cell);
    }
  }

  /** The errors of one row, given the NIK cells seen before it. */
  function RowErrors(row: PlanRow, line: nat, seen: set<Option<string>>): seq<ValidationError> {
    (if NikOk(row.noKTP) then [] else [ValidationError(line, Some(row.noKTP.GetOr("")), BadNik)])
    + (if row.noKTP in seen then [ValidationError(line, row.noKTP, DuplicateNik)] else [])
    + (if QuantityOk(row.quantity) then [] else [ValidationError(line, row.noKTP, BadQuantity)])
  }

  /** The errors of the first `k` rows, row by row. */
  function ErrorsUpTo(rows: seq<PlanRow>, k: nat): seq<ValidationError>
    requires k <= |rows|
    decreases k
  {
    if k == 0 then [] else ErrorsUpTo(rows, k - 1) + RowErrors(rows[k - 1], k + 1, Earlier(rows, k - 1))
  }

  /** The problems reported on one spreadsheet line. */
  function ProblemsAt(errors: seq<ValidationError>, line: nat): set<Problem>
    decreases |errors|
  {
    if errors == [] then {}
    else
      var last := errors[|errors| - 1];
      ProblemsAt(errors[..|errors| - 1], line) + (if last.line == line then {last.problem} else {})
  }

  /** Row `i`'s NIK cell already appeared on an earlier row. */
  predicate Repeated(rows: seq<PlanRow>, i: nat)
    requires i < |rows|
  {
    exists j :: 0 <= j < i && rows[j].noKTP == rows[i].noKTP
  }

  /** The problems row `i` has: the reference the validator is held to. */
  function ProblemsOf(rows: seq<PlanRow>, i: nat): set<Problem>
    requires i < |rows|
  {
    (if NikOk(rows[i].noKTP) then {} else {BadNik})
    + (if Repeated(rows, i) then {DuplicateNik} else {})
    + (if QuantityOk(rows[i].quantity) then {} else {BadQuantity})
  }

  /** The order of the checks within a row. */
  function Rank(p: Problem): nat {
    match p
    case BadNik => 0
    case DuplicateNik => 1
    case BadQuantity => 2
  }

  /** `a` is reported before `b`: on an earlier line, or on the same line by an earlier check. */
  predicate Precedes(a: ValidationError, b: ValidationError) {
    a.line < b.line || (a.line == b.line && Rank(a.problem) < Rank(b.problem))
  }

  /** Every error precedes every later one. */
  predicate InOrder(es: seq<ValidationError>) {
    forall a, b :: 0 <= a < b < |es| ==> Precedes(es[a], es[b])
  }

  /** The NIK column of an error about a row: an empty text for a missing cell when the NIK is bad, else the cell. */
  function ReportedNik(row: PlanRow, p: Problem): Option<string> {
    if p == BadNik then Some(row.noKTP.GetOr("")) else row.noKTP
  }

  /** The number of checks row `i` fails. */
  function FailedChecks(rows: seq<PlanRow>, i: nat): nat
    requires i < |rows|
  {
    (if NikOk(rows[i].noKTP) then 0 else 1)
    + (if Repeated(rows, i) then 1 else 0)
    + (if QuantityOk(rows[i].quantity) then 0 else 1)
  }

  /** The number of failed checks over the first `k` rows. */
  function FailedTotal(rows: seq<PlanRow>, k: nat): nat
    requires k <= |rows|
    decreases k
  {
    if k == 0 then 0 else FailedTotal(rows, k - 1) + FailedChecks(rows, k - 1)
  }

  /**
   * The loop of `runValidasiRencana`, with `nikSet` as `seen`. Every error
   * names a row's line and that row's NIK cell; the errors come line by
   * line, and on a line in the order of the checks, without repeats; the
   * problems on a line are exactly its row's; their number ("Ditemukan N
   * error") is the number of failed checks; and there are none exactly
   * when every row is valid.
   */
  method Validate(rows: seq<PlanRow>) returns (errors: seq<ValidationError>)
    ensures forall e :: e in errors ==> 2 <= e.line < |rows| + 2 && e.nik == ReportedNik(rows[e.line - 2], e.problem)
    ensures InOrder(errors)
    ensures forall i :: 0 <= i < |rows| ==> ProblemsAt(errors, i + 2) == ProblemsOf(rows, i)
    ensures |errors| == FailedTotal(rows, |rows|)
    ensures |errors| == 0 <==> AllValid(rows)
  {
    errors := [];
    var seen: set<Option<string>> := {};
    var i := 0;
    while i < |rows|
      invariant i <= |rows|
      invariant seen == Earlier(rows, i)
      invariant errors == ErrorsUpTo(rows, i)
    {
      var row := rows[i];
      if !NikOk(row.noKTP) {
        errors := errors + [ValidationError(i + 2, Some(row.noKTP.GetOr("")), BadNik)];
      }
      if row.noKTP in seen {
        errors := errors + [ValidationError(i + 2, row.noKTP, DuplicateNik)];
      }
      if !QuantityOk(row.quantity) {
        errors := errors + [ValidationError(i + 2, row.noKTP, BadQuantity)];
      }
      seen := seen + {row.noKTP};
      i := i + 1;
    }
    ValidatorReport(rows);
  }

  /** What the validator's list, once every row is checked, says about the rows. */
  lemma ValidatorReport(rows: seq<PlanRow>)
    ensures var errors := ErrorsUpTo(rows, |rows|);
      && NameTheirRows(rows, errors, |rows|)
      && InOrder(errors)
      && (forall i :: 0 <= i < |rows| ==> ProblemsAt(errors, i + 2) == ProblemsOf(rows, i))
      && |errors| == FailedTotal(rows, |rows|)
      && (|errors| == 0 <==> AllValid(rows))
  {
    var errors := ErrorsUpTo(rows, |rows|);
    assert NameTheirRows(rows, errors, |rows|) by {
      ErrorsNameTheirRows(rows, |rows|);
    }
    assert InOrder(errors) by {
      ErrorsInOrder(rows, |rows|);
    }
    assert forall i :: 0 <= i < |rows| ==> ProblemsAt(errors, i + 2) == ProblemsOf(rows, i) by {
      forall i | 0 <= i < |rows|
        ensures ProblemsAt(errors, i + 2) == ProblemsOf(rows, i)
      {
        ErrorsReportProblems(rows, |rows|, i);
      }
    }
    assert |errors| == FailedTotal(rows, |rows|) by {
      ErrorCount(rows, |rows|);
    }
    NoErrorsIffValid(rows);
  }

  lemma {:induction false} ProblemsAtConcat(a: seq<ValidationError>, b: seq<ValidationError>, line: nat)
    ensures ProblemsAt(a + b, line) == ProblemsAt(a, line) + ProblemsAt(b, line)
    decreases |b|
  {
    if b == [] {
      assert a + b == a;
    } else {
      var ab := a + b;
      assert ab[..|ab| - 1] == a + b[..|b| - 1];
      ProblemsAtConcat(a, b[..|b| - 1], line);
    }
  }

  /** Every error is reported among the problems of its line. */
  lemma {:induction false} ProblemsAtMember(errors: seq<ValidationError>, j: nat)
    requires j < |errors|
    ensures errors[j].problem in ProblemsAt(errors, errors[j].line)
    decreases |errors|
  {
    if j < |errors| - 1 {
      ProblemsAtMember(errors[..|errors| - 1], j);
    }
  }

  /** A line no error names reports nothing. */
  lemma {:induction false} ProblemsAtNoLine(errors: seq<ValidationError>, line: nat)
    requires forall e :: e in errors ==> e.line != line
    ensures ProblemsAt(errors, line) == {}
    decreases |errors|
  {
    if errors != [] {
      var front := errors[..|errors| - 1];
      assert forall e :: e in front ==> e in errors;
      ProblemsAtNoLine(front, line);
    }
  }

  /** The problems of an error that may or may not be raised. */
  lemma ProblemsAtOptional(raised: bool, e: ValidationError, line: nat)
    ensures ProblemsAt(if raised then [e] else [], line) == if raised && e.line == line then {e.problem} else {}
  {
    assert [e][..0] == [];
  }

  /** A row's errors, taken check by check. */
  lemma RowErrorsParts(row: PlanRow, line: nat, seen: set<Option<string>>, at: nat)
    ensures ProblemsAt(RowErrors(row, line, seen), at) ==
      (if !NikOk(row.noKTP) && line == at then {BadNik} else {})
      + (if row.noKTP in seen && line == at then {DuplicateNik} else {})
      + (if !QuantityOk(row.quantity) && line == at then {BadQuantity} else {})
  {
    var a := if !NikOk(row.noKTP) then [ValidationError(line, Some(row.noKTP.GetOr("")), BadNik)] else [];
    var b := if row.noKTP in seen then [ValidationError(line, row.noKTP, DuplicateNik)] else [];
    var c := if !QuantityOk(row.quantity) then [ValidationError(line, row.noKTP, BadQuantity)] else [];
    assert RowErrors(row, line, seen) == a + b + c;
    ProblemsAtConcat(a + b, c, at);
    ProblemsAtConcat(a, b, at);
    ProblemsAtOptional(!NikOk(row.noKTP), ValidationError(line, Some(row.noKTP.GetOr("")), BadNik), at);
    ProblemsAtOptional(row.noKTP in seen, ValidationError(line, row.noKTP, DuplicateNik), at);
    ProblemsAtOptional(!QuantityOk(row.quantity), ValidationError(line, row.noKTP, BadQuantity), at);
  }

  /** A row's errors all sit on its own line. */
  lemma RowErrorsOtherLine(row: PlanRow, line: nat, seen: set<Option<string>>, other: nat)
    requires other != line
    ensures ProblemsAt(RowErrors(row, line, seen), other) == {}
  {
    RowErrorsParts(row, line, seen, other);
  }

  /** On its own line, row `i` reports exactly its problems. */
  lemma RowErrorsOwnLine(rows: seq<PlanRow>, i: nat, line: nat, at: nat)
    requires i < |rows| && line == i + 2 && at == line
    ensures ProblemsAt(RowErrors(rows[i], line, Earlier(rows, i)), at) == ProblemsOf(rows, i)
  {
    RowErrorsParts(rows[i], line, Earlier(rows, i), at);
    EarlierHolds(rows, i, rows[i].noKTP);
  }

  /** The first `k` rows report one more row's errors than the first `k - 1`. */
  lemma ErrorsUpToSplit(rows: seq<PlanRow>, k: nat, line: nat)
    requires 0 < k <= |rows|
    ensures ProblemsAt(ErrorsUpTo(rows, k), line) ==
      ProblemsAt(ErrorsUpTo(rows, k - 1), line) + ProblemsAt(RowErrors(rows[k - 1], k + 1, Earlier(rows, k - 1)), line)
  {
    ProblemsAtConcat(ErrorsUpTo(rows, k - 1), RowErrors(rows[k - 1], k + 1, Earlier(rows, k - 1)), line);
  }

  /** Nothing is reported on the line of a row not yet checked. */
  lemma ErrorsBeforeRow(rows: seq<PlanRow>, k: nat, i: nat)
    requires k <= i < |rows|
    ensures ProblemsAt(ErrorsUpTo(rows, k), i + 2) == {}
  {
    ErrorsOnRowLines(rows, k);
    ProblemsAtNoLine(ErrorsUpTo(rows, k), i + 2);
  }

  /** Right after row `i` is checked, its line reports exactly that row's problems. */
  lemma ErrorsReportLastRow(rows: seq<PlanRow>, i: nat)
    requires i < |rows|
    ensures ProblemsAt(ErrorsUpTo(rows, i + 1), i + 2) == ProblemsOf(rows, i)
  {
    ErrorsUpToSplit(rows, i + 1, i + 2);
    ErrorsBeforeRow(rows, i, i);
    RowErrorsOwnLine(rows, i, i + 2, i + 2);
  }

  /** Checking row `k - 1` adds nothing to any other line. */
  lemma NextRowKeepsLine(rows: seq<PlanRow>, k: nat, line: nat)
    requires 0 < k <= |rows| && line != k + 1
    ensures ProblemsAt(ErrorsUpTo(rows, k), line) == ProblemsAt(ErrorsUpTo(rows, k - 1), line)
  {
    ErrorsUpToSplit(rows, k, line);
    RowErrorsOtherLine(rows[k - 1], k + 1, Earlier(rows, k - 1), line);
  }

  /** Rows checked after row `i` add nothing to its line. */
  lemma {:induction false} LaterRowsKeepLine(rows: seq<PlanRow>, k: nat, i: nat)
    requires i < k <= |rows|
    ensures ProblemsAt(ErrorsUpTo(rows, k), i + 2) == ProblemsAt(ErrorsUpTo(rows, i + 1), i + 2)
    decreases k
  {
    if i + 1 < k {
      NextRowKeepsLine(rows, k, i + 2);
      LaterRowsKeepLine(rows, k - 1, i);
    }
  }

  /** Once row `i` is checked, its line reports exactly that row's problems. */
  lemma ErrorsReportProblems(rows: seq<PlanRow>, k: nat, i: nat)
    requires i < k <= |rows|
    ensures ProblemsAt(ErrorsUpTo(rows, k), i + 2) == ProblemsOf(rows, i)
  {
    LaterRowsKeepLine(rows, k, i);
    ErrorsReportLastRow(rows, i);
  }

  /** Every NIK well-formed, every quantity positive, no NIK cell twice. */
  predicate AllValid(rows: seq<PlanRow>) {
    && (forall i :: 0 <= i < |rows| ==> NikOk(rows[i].noKTP) && QuantityOk(rows[i].quantity))
    && (forall i, j :: 0 <= i < j < |rows| ==> rows[i].noKTP != rows[j].noKTP)
  }

  /** Every error of the first `k` rows names the line of one of them. */
  lemma {:induction false} ErrorsOnRowLines(rows: seq<PlanRow>, k: nat)
    requires k <= |rows|
    ensures forall e :: e in ErrorsUpTo(rows, k) ==> 2 <= e.line < k + 2
    decreases k
  {
    if k > 0 {
      ErrorsOnRowLines(rows, k - 1);
      var prev, es := ErrorsUpTo(rows, k - 1), RowErrors(rows[k - 1], k + 1, Earlier(rows, k - 1));
      RowErrorsOnLine(rows[k - 1], k + 1, Earlier(rows, k - 1));
      LinesAppend(prev, es, k);
    }
  }

  /** Appending the errors of line `k + 1` to errors on lines `2..k` keeps them on lines `2..k + 1`. */
  lemma LinesAppend(prev: seq<ValidationError>, es: seq<ValidationError>, k: nat)
    requires 0 < k
    requires forall e :: e in prev ==> 2 <= e.line < k + 1
    requires forall e :: e in es ==> e.line == k + 1
    ensures forall e :: e in prev + es ==> 2 <= e.line < k + 2
  {
    assert forall e :: e in prev + es ==> e in prev || e in es;
  }

  /** A row's errors all carry its line. */
  lemma RowErrorsOnLine(row: PlanRow, line: nat, seen: set<Option<string>>)
    ensures forall e :: e in RowErrors(row, line, seen) ==> e.line == line
  {
  }

  /** Every error names the line of one of the first `k` rows and that row's NIK cell. */
  predicate NameTheirRows(rows: seq<PlanRow>, es: seq<ValidationError>, k: nat)
    requires k <= |rows|
  {
    forall e :: e in es ==> 2 <= e.line < k + 2 && e.nik == ReportedNik(rows[e.line - 2], e.problem)
  }

  /** A row's errors carry its NIK cell as the program reports it. */
  lemma RowErrorsNik(rows: seq<PlanRow>, k: nat)
    requires 0 < k <= |rows|
    ensures forall e :: e in RowErrors(rows[k - 1], k + 1, Earlier(rows, k - 1)) ==>
      e.line == k + 1 && e.nik == ReportedNik(rows[e.line - 2], e.problem)
  {
  }

  /** Appending the errors of row `k - 1` to those of the rows before it. */
  lemma NamesAppend(rows: seq<PlanRow>, prev: seq<ValidationError>, es: seq<ValidationError>, k: nat)
    requires 0 < k <= |rows|
    requires NameTheirRows(rows, prev, k - 1)
    requires forall e :: e in es ==> e.line == k + 1 && e.nik == ReportedNik(rows[e.line - 2], e.problem)
    ensures NameTheirRows(rows, prev + es, k)
  {
    assert forall e :: e in prev + es ==> e in prev || e in es;
  }

  /** The errors of the first `k` rows name those rows' lines and NIK cells. */
  lemma {:induction false} ErrorsNameTheirRows(rows: seq<PlanRow>, k: nat)
    requires k <= |rows|
    ensures NameTheirRows(rows, ErrorsUpTo(rows, k), k)
    decreases k
  {
    if k > 0 {
      var prev, es := ErrorsUpTo(rows, k - 1), RowErrors(rows[k - 1], k + 1, Earlier(rows, k - 1));
      assert ErrorsUpTo(rows, k) == prev + es;
      ErrorsNameTheirRows(rows, k - 1);
      RowErrorsNik(rows, k);
      NamesAppend(rows, prev, es, k);
    }
  }

  /** A row's errors come in the order of the checks. */
  lemma RowErrorsInOrder(row: PlanRow, line: nat, seen: set<Option<string>>)
    ensures InOrder(RowErrors(row, line, seen))
  {
  }

  /** Errors in order on earlier lines, followed by errors in order on one later line, are in order. */
  lemma OrderedAppend(xs: seq<ValidationError>, ys: seq<ValidationError>, line: nat)
    requires InOrder(xs) && InOrder(ys)
    requires forall e :: e in xs ==> e.line < line
    requires forall e :: e in ys ==> e.line == line
    ensures InOrder(xs + ys)
  {
    forall a, b | 0 <= a < b < |xs + ys|
      ensures Precedes((xs + ys)[a], (xs + ys)[b])
    {
      if b < |xs| {
        assert (xs + ys)[a] == xs[a] && (xs + ys)[b] == xs[b];
      } else if a < |xs| {
        assert (xs + ys)[a] == xs[a] && xs[a] in xs;
        assert (xs + ys)[b] == ys[b - |xs|] && ys[b - |xs|] in ys;
      } else {
        assert (xs + ys)[a] == ys[a - |xs|] && (xs + ys)[b] == ys[b - |xs|];
      }
    }
  }

  /** The errors of the first `k` rows come line by line and, on a line, in the order of the checks. */
  lemma {:induction false} ErrorsInOrder(rows: seq<PlanRow>, k: nat)
    requires k <= |rows|
    ensures InOrder(ErrorsUpTo(rows, k))
    decreases k
  {
    if k > 0 {
      var prev, es := ErrorsUpTo(rows, k - 1), RowErrors(rows[k - 1], k + 1, Earlier(rows, k - 1));
      assert ErrorsUpTo(rows, k) == prev + es;
      ErrorsInOrder(rows, k - 1);
      RowErrorsInOrder(rows[k - 1], k + 1, Earlier(rows, k - 1));
      assert forall e :: e in prev ==> e.line < k + 1 by {
        ErrorsOnRowLines(rows, k - 1);
      }
      assert forall e :: e in es ==> e.line == k + 1 by {
        RowErrorsOnLine(rows[k - 1], k + 1, Earlier(rows, k - 1));
      }
      OrderedAppend(prev, es, k + 1);
    }
  }

  /** The number of errors is the number of failed checks. */
  lemma {:induction false} ErrorCount(rows: seq<PlanRow>, k: nat)
    requires k <= |rows|
    ensures |ErrorsUpTo(rows, k)| == FailedTotal(rows, k)
    decreases k
  {
    if k > 0 {
      ErrorCount(rows, k - 1);
      EarlierHolds(rows, k - 1, rows[k - 1].noKTP);
    }
  }

  /** The file passes exactly when every row is valid and no NIK cell repeats. */
  lemma NoErrorsIffValid(rows: seq<PlanRow>)
    ensures |ErrorsUpTo(rows, |rows|)| == 0 <==> AllValid(rows)
  {
    var errors := ErrorsUpTo(rows, |rows|);
    if |errors| == 0 {
      forall i | 0 <= i < |rows|
        ensures NikOk(rows[i].noKTP) && QuantityOk(rows[i].quantity)
      {
        ErrorsReportProblems(rows, |rows|, i);
        assert ProblemsAt(errors, i + 2) == {};
        assert ProblemsOf(rows, i) == {};
      }
      forall i, j | 0 <= i < j < |rows|
        ensures rows[i].noKTP != rows[j].noKTP
      {
        ErrorsReportProblems(rows, |rows|, j);
        assert ProblemsAt(errors, j + 2) == {};
        assert DuplicateNik !in ProblemsOf(rows, j);
      }
    } else {
      var e := errors[0];
      ErrorsOnRowLines(rows, |rows|);
      var i := e.line - 2;
      ErrorsReportProblems(rows, |rows|, i);
      ProblemsAtMember(errors, 0);
      assert e.problem in ProblemsOf(rows, i);
    }
  }
}
