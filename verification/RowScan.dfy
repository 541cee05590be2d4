/** The row loop of `validate_csv`, over any per-row rules. */
module RowScan {
  import opened Common

  /** A row as `csv.DictReader` yields it; `extra` says that it has values beyond the header. */
  datatype Row = Row(cells: map<string, string>, extra: bool)

  datatype Field = InFile | InHeader | InRow | InDatabase | Email | FirstName | LastName | Phone | Source

  datatype Code =
    | Unreadable | TooLarge | TooManyRows | InvalidEncoding | MalformedCsv
    | MissingHeader | DuplicateColumns | MissingColumns | UnexpectedColumns
    | ExtraValues | Required | InvalidFormat | InvalidText | DuplicateInFile
    | CustomerConflict | MigrationMissing | OperationFailed

  datatype Fault = Fault(field: Field, code: Code)

  /** An actionable error. Of its wording only the row it refers to is kept. */
  datatype Issue = Issue(row: Option<nat>, fault: Fault, refersTo: Option<nat>)

  datatype Values = Values(firstName: string, lastName: string, phone: string, source: string)

  datatype ValidatedCustomer = ValidatedCustomer(email: string, values: Values, rowNumber: nat)

  /** What the field validators say about one row: all faults, and the email unless it is faulty. */
  datatype Rules = Rules(faults: Row -> seq<Fault>, email: Row -> Option<string>, values: Row -> Values)

  const DUPLICATE := Fault(Email, DuplicateInFile)
  const TOO_MANY_ROWS := Fault(InFile, TooManyRows)

  /** The loop's accumulators. */
  datatype Scan = Scan(
    valid: nat, issues: seq<Issue>, seen: map<string, nat>, records: seq<ValidatedCustomer>)

  const NothingScanned := Scan(0, [], map[], [])

  function At(number: nat, faults: seq<Fault>): (issues: seq<Issue>)
    ensures |issues| == |faults|
    ensures forall i | 0 <= i < |issues| :: issues[i] == Issue(Some(number), faults[i], None)
  {
    seq(|faults|, i requires 0 <= i < |faults| => Issue(Some(number), faults[i], None))
  }

  function EmailOr(rules: Rules, row: Row): string {
    match rules.email(row) case Some(e) => e case None => ""
  }

  function RowIssues(rules: Rules, seen: map<string, nat>, row: Row, number: nat): (issues: seq<Issue>)
    ensures forall i | 0 <= i < |issues| :: issues[i].row == Some(number)
    ensures issues == [] <==> rules.faults(row) == [] && !(rules.email(row).Some? && rules.email(row).value in seen)
  {
    At(number, rules.faults(row)) +
    if rules.email(row).Some? && rules.email(row).value in seen
    then [Issue(Some(number), DUPLICATE, Some(seen[rules.email(row).value]))]
    else []
  }

  function ScanRow(rules: Rules, scan: Scan, row: Row, number: nat): Scan {
    var issues := RowIssues(rules, scan.seen, row, number);
    var email := rules.email(row);
    var seen := if email.Some? && email.value !in scan.seen then scan.seen[email.value := number] else scan.seen;
    if issues != [] then scan.(issues := scan.issues + issues, seen := seen)
    else scan.(valid := scan.valid + 1, seen := seen,
               records := scan.records + [ValidatedCustomer(EmailOr(rules, row), rules.values(row), number)])
  }

  /** The accumulators after the first `k` rows; the first data row is row 2. */
  function ScanPrefix(rules: Rules, rows: seq<Row>, k: nat): Scan
    requires k <= |rows|
  {
    if k == 0 then NothingScanned else ScanRow(rules, ScanPrefix(rules, rows, k - 1), rows[k - 1], k + 1)
  }

  /** The loop: counts rows, stops one past the limit, and collects issues or records. */
  method ScanRows(rules: Rules, rows: seq<Row>, maxRows: nat) returns (total: nat, scan: Scan)
    ensures |rows| <= maxRows ==> total == |rows| && scan == ScanPrefix(rules, rows, |rows|)
    ensures |rows| > maxRows ==>
              && total == maxRows + 1
              && scan == ScanPrefix(rules, rows, maxRows).(
                           issues := ScanPrefix(rules, rows, maxRows).issues + [Issue(None, TOO_MANY_ROWS, None)])
  {
    total := 0;
    var valid: nat, issues: seq<Issue>, records: seq<ValidatedCustomer> := 0, [], [];
    var seen: map<string, nat> := map[];
    while total < |rows|
      invariant total <= |rows| && total <= maxRows
      invariant Scan(valid, issues, seen, records) == ScanPrefix(rules, rows, total)
    {
      var row, number := rows[total], total + 2;
      total := total + 1;
      if total > maxRows {
        issues := issues + [Issue(None, TOO_MANY_ROWS, None)];
        break;
      }
      var rowIssues := At(number, rules.faults(row));
      var email := rules.email(row);
      if email.Some? {
        if email.value in seen {
          rowIssues := rowIssues + [Issue(Some(number), DUPLICATE, Some(seen[email.value]))];
        } else {
          seen := seen[email.value := number];
        }
      }
      if rowIssues != [] {
        issues := issues + rowIssues;
      } else {
        records := records + [ValidatedCustomer(EmailOr(rules, row), rules.values(row), number)];
        valid := valid + 1;
      }
    }
    scan := Scan(valid, issues, seen, records);
  }

  // ---- What the loop establishes ----

  predicate DistinctEmails(records: seq<ValidatedCustomer>) {
    forall i, j | 0 <= i < j < |records| :: records[i].email != records[j].email
  }

  /** The first `k` rows are valid one by one and no email occurs twice among them. */
  predicate RowsOk(rules: Rules, rows: seq<Row>, k: nat)
    requires k <= |rows|
  {
    && (forall i | 0 <= i < k :: rules.faults(rows[i]) == [])
    && (forall i, j | 0 <= i < j < k :: EmailOr(rules, rows[i]) != EmailOr(rules, rows[j]))
  }

  /** A row without faults has an email. */
  ghost predicate Coherent(rules: Rules) {
    forall row :: rules.faults(row) == [] ==> rules.email(row).Some?
  }

  /** Row number `number` is the first, among the first `k` rows, that has the valid email `e`. */
  predicate FirstRowWith(rules: Rules, rows: seq<Row>, k: nat, e: string, number: nat)
    requires k <= |rows|
  {
    && 2 <= number < k + 2 && rules.email(rows[number - 2]) == Some(e)
    && forall h | 0 <= h < number - 2 :: rules.email(rows[h]) != Some(e)
  }

  /** `seen_emails` maps exactly the valid emails read so far, each to the first row that has it. */
  lemma {:induction false} SeenNamesFirstRow(rules: Rules, rows: seq<Row>, k: nat)
    requires k <= |rows|
    ensures var seen := ScanPrefix(rules, rows, k).seen;
            && (forall e | e in seen :: FirstRowWith(rules, rows, k, e, seen[e]))
            && (forall i | 0 <= i < k :: rules.email(rows[i]).Some? ==> rules.email(rows[i]).value in seen)
  {
    if k > 0 {
      SeenNamesFirstRow(rules, rows, k - 1);
      var before, after := ScanPrefix(rules, rows, k - 1).seen, ScanPrefix(rules, rows, k).seen;
      forall e | e in after ensures FirstRowWith(rules, rows, k, e, after[e]) {
        if e in before { assert FirstRowWith(rules, rows, k - 1, e, before[e]); }
      }
    }
  }

  lemma RowsOkStep(rules: Rules, rows: seq<Row>, k: nat)
    requires 0 < k <= |rows|
    ensures RowsOk(rules, rows, k) <==>
              && RowsOk(rules, rows, k - 1)
              && rules.faults(rows[k - 1]) == []
              && forall i | 0 <= i < k - 1 :: EmailOr(rules, rows[i]) != EmailOr(rules, rows[k - 1])
  {}

  /** Among rows that are fine, the scan meets a repeated email exactly when some earlier row has it. */
  lemma SeenIffEarlier(rules: Rules, rows: seq<Row>, k: nat, e: string)
    requires k <= |rows| && Coherent(rules) && RowsOk(rules, rows, k)
    ensures e in ScanPrefix(rules, rows, k).seen <==> exists i :: 0 <= i < k && EmailOr(rules, rows[i]) == e
  {
    SeenNamesFirstRow(rules, rows, k);
    var seen := ScanPrefix(rules, rows, k).seen;
    if e in seen {
      assert FirstRowWith(rules, rows, k, e, seen[e]);
      assert EmailOr(rules, rows[seen[e] - 2]) == e;
    }
    forall i | 0 <= i < k && EmailOr(rules, rows[i]) == e ensures e in seen {
      assert rules.faults(rows[i]) == [];
      assert rules.email(rows[i]).Some?;
    }
  }

  /** Scanning finds no issue exactly when the rows are fine, and then keeps every row in order. */
  lemma {:induction false} ScanFindsNothing(rules: Rules, rows: seq<Row>, k: nat)
    requires k <= |rows| && Coherent(rules)
    ensures ScanPrefix(rules, rows, k).issues == [] <==> RowsOk(rules, rows, k)
    ensures RowsOk(rules, rows, k) ==>
              && ScanPrefix(rules, rows, k).valid == k == |ScanPrefix(rules, rows, k).records|
              && forall i | 0 <= i < k ::
                   ScanPrefix(rules, rows, k).records[i] ==
                   ValidatedCustomer(EmailOr(rules, rows[i]), rules.values(rows[i]), i + 2)
  {
    if k > 0 {
      ScanFindsNothing(rules, rows, k - 1);
      RowsOkStep(rules, rows, k);
      var before, row := ScanPrefix(rules, rows, k - 1), rows[k - 1];
      var found := RowIssues(rules, before.seen, row, k + 1);
      if RowsOk(rules, rows, k - 1) && rules.faults(row) == [] {
        SeenIffEarlier(rules, rows, k - 1, EmailOr(rules, row));
        assert rules.email(row).Some?;
      }
      assert ScanPrefix(rules, rows, k).issues == [] <==> before.issues == [] && found == [];
    }
  }

  lemma FineRowsHaveDistinctEmails(rules: Rules, rows: seq<Row>, k: nat)
    requires k <= |rows| && Coherent(rules) && RowsOk(rules, rows, k)
    ensures DistinctEmails(ScanPrefix(rules, rows, k).records)
  {
    ScanFindsNothing(rules, rows, k);
  }

  /** Rows that produced an issue. */
  predicate Reported(issues: seq<Issue>, number: nat) {
    exists i :: 0 <= i < |issues| && issues[i].row == Some(number)
  }

  predicate Recorded(records: seq<ValidatedCustomer>, number: nat) {
    exists i :: 0 <= i < |records| && records[i].rowNumber == number
  }

  lemma ReportedAppend(a: seq<Issue>, b: seq<Issue>, n: nat)
    ensures Reported(a + b, n) <==> Reported(a, n) || Reported(b, n)
  {
    if Reported(a, n) {
      var i :| 0 <= i < |a| && a[i].row == Some(n);
      assert (a + b)[i].row == Some(n);
    }
    if Reported(b, n) {
      var i :| 0 <= i < |b| && b[i].row == Some(n);
      assert (a + b)[|a| + i].row == Some(n);
    }
  }

  lemma RecordedAppend(a: seq<ValidatedCustomer>, c: ValidatedCustomer, n: nat)
    ensures Recorded(a + [c], n) <==> Recorded(a, n) || c.rowNumber == n
  {
    assert (a + [c])[|a|] == c;
    if Recorded(a, n) {
      var i :| 0 <= i < |a| && a[i].rowNumber == n;
      assert (a + [c])[i].rowNumber == n;
    }
  }

  /** Every scanned row is either recorded or reported, never both, and `valid_rows` counts the records. */
  lemma {:induction false} RowsArePartitioned(rules: Rules, rows: seq<Row>, k: nat)
    requires k <= |rows|
    ensures var scan := ScanPrefix(rules, rows, k);
            && scan.valid == |scan.records|
            && (forall n: nat :: Recorded(scan.records, n) || Reported(scan.issues, n) <==> 2 <= n < k + 2)
            && (forall n: nat :: !(Recorded(scan.records, n) && Reported(scan.issues, n)))
  {
    if k > 0 {
      RowsArePartitioned(rules, rows, k - 1);
      var before, after := ScanPrefix(rules, rows, k - 1), ScanPrefix(rules, rows, k);
      var found := RowIssues(rules, before.seen, rows[k - 1], k + 1);
      forall n: nat
        ensures Recorded(after.records, n) <==> Recorded(before.records, n) || (found == [] && n == k + 1)
        ensures Reported(after.issues, n) <==> Reported(before.issues, n) || (found != [] && n == k + 1)
      {
        if found == [] {
          RecordedAppend(before.records, after.records[|before.records|], n);
        } else {
          ReportedAppend(before.issues, found, n);
          assert found[0].row == Some(k + 1);
        }
      }
    }
  }

  /** A repeated valid email is reported at the later row, naming the first row that has it. */
  lemma {:induction false} DuplicateNamesFirstRow(rules: Rules, rows: seq<Row>, k: nat, first: nat, later: nat)
    requires first < later < k <= |rows|
    requires rules.email(rows[later]).Some?
    requires FirstRowWith(rules, rows, later, rules.email(rows[later]).value, first + 2)
    ensures Issue(Some(later + 2), DUPLICATE, Some(first + 2)) in ScanPrefix(rules, rows, k).issues
  {
    if later < k - 1 {
      DuplicateNamesFirstRow(rules, rows, k - 1, first, later);
    } else {
      SeenNamesFirstRow(rules, rows, later);
      var seen := ScanPrefix(rules, rows, later).seen;
      var e := rules.email(rows[later]).value;
      assert rules.email(rows[first]).Some?;
      assert FirstRowWith(rules, rows, later, e, seen[e]);
      assert seen[e] == first + 2;
      var found := RowIssues(rules, seen, rows[later], later + 2);
      assert found[|found| - 1] == Issue(Some(later + 2), DUPLICATE, Some(first + 2));
    }
  }

  /** Every fault of every row is reported at that row, and so is every later duplicate; nothing else is. */
  lemma {:induction false} IssuesAreFaults(rules: Rules, rows: seq<Row>, k: nat, n: nat, f: Fault, first: Option<nat>)
    requires k <= |rows|
    ensures Issue(Some(n), f, first) in ScanPrefix(rules, rows, k).issues <==>
              && 2 <= n < k + 2
              && (|| (first.None? && f in rules.faults(rows[n - 2]))
                  || (f == DUPLICATE && first.Some? && rules.email(rows[n - 2]).Some?
                      && first.value < n && FirstRowWith(rules, rows, k, rules.email(rows[n - 2]).value, first.value)))
  {
    if k > 0 {
      IssuesAreFaults(rules, rows, k - 1, n, f, first);
      var before, row := ScanPrefix(rules, rows, k - 1), rows[k - 1];
      var found := RowIssues(rules, before.seen, row, k + 1);
      assert ScanPrefix(rules, rows, k).issues == before.issues + found;
      FoundAreFaults(rules, before.seen, row, k + 1, n, f, first);
      SeenNamesFirstRow(rules, rows, k - 1);
      if n == k + 1 && rules.email(row).Some? {
        FirstIsSeen(rules, rows, k, rules.email(row).value, first);
      }
    }
  }

  lemma FoundAreFaults(rules: Rules, seen: map<string, nat>, row: Row, number: nat, n: nat, f: Fault,
                       first: Option<nat>)
    ensures Issue(Some(n), f, first) in RowIssues(rules, seen, row, number) <==>
              && n == number
              && (|| (first.None? && f in rules.faults(row))
                  || (f == DUPLICATE && rules.email(row).Some? && rules.email(row).value in seen
                      && first == Some(seen[rules.email(row).value])))
  {
    var faults := rules.faults(row);
    if first.None? && n == number && f in faults {
      var i :| 0 <= i < |faults| && faults[i] == f;
      assert At(number, faults)[i] == Issue(Some(n), f, None);
      assert RowIssues(rules, seen, row, number)[i] == At(number, faults)[i];
    }
    if rules.email(row).Some? && rules.email(row).value in seen {
      var issues := RowIssues(rules, seen, row, number);
      assert issues[|issues| - 1] == Issue(Some(number), DUPLICATE, Some(seen[rules.email(row).value]));
    }
  }

  /** An email that is seen when its row is read is seen at its first row. */
  lemma FirstIsSeen(rules: Rules, rows: seq<Row>, k: nat, e: string, first: Option<nat>)
    requires 0 < k <= |rows| && rules.email(rows[k - 1]) == Some(e)
    ensures var seen := ScanPrefix(rules, rows, k - 1).seen;
            e in seen && first == Some(seen[e]) <==>
              first.Some? && first.value < k + 1 && FirstRowWith(rules, rows, k, e, first.value)
  {
    SeenNamesFirstRow(rules, rows, k - 1);
    var seen := ScanPrefix(rules, rows, k - 1).seen;
    if e in seen { assert FirstRowWith(rules, rows, k - 1, e, seen[e]); }
    if first.Some? && first.value < k + 1 && FirstRowWith(rules, rows, k, e, first.value) {
      assert rules.email(rows[first.value - 2]).Some?;
    }
  }

  /** Each issue names one of the first `k` rows, and later issues no earlier row. */
  predicate InRowOrder(issues: seq<Issue>, k: nat) {
    && (forall i | 0 <= i < |issues| :: issues[i].row.Some? && 2 <= issues[i].row.value < k + 2)
    && (forall i, j | 0 <= i < j < |issues| :: issues[i].row.value <= issues[j].row.value)
  }

  lemma OrderAppend(a: seq<Issue>, b: seq<Issue>, k: nat)
    requires k > 0 && InRowOrder(a, k - 1) && forall i | 0 <= i < |b| :: b[i].row == Some(k + 1)
    ensures InRowOrder(a + b, k)
  {
    forall i | 0 <= i < |a + b| ensures (a + b)[i].row.Some? && 2 <= (a + b)[i].row.value < k + 2 {
      assert (a + b)[i] == if i < |a| then a[i] else b[i - |a|];
    }
  }

  /** Issues come in the order of their rows. */
  lemma {:induction false} IssuesInRowOrder(rules: Rules, rows: seq<Row>, k: nat)
    requires k <= |rows|
    ensures InRowOrder(ScanPrefix(rules, rows, k).issues, k)
  {
    hide InRowOrder, RowIssues;
    if k == 0 {
      assert InRowOrder([], 0) by { NothingInOrder(); }
    } else {
      IssuesInRowOrder(rules, rows, k - 1);
      var before := ScanPrefix(rules, rows, k - 1);
      var found := RowIssues(rules, before.seen, rows[k - 1], k + 1);
      OrderAppend(before.issues, found, k);
      assert ScanPrefix(rules, rows, k).issues == before.issues + found;
    }
  }

  lemma NothingInOrder()
    ensures InRowOrder([], 0)
  {}
}
