/** All-or-nothing import of validated customers, idempotent by exact file. */
module Importer {
  import opened Common
  import opened Counting
  import opened RowScan
  import opened Validation

  type BatchId = nat
  type FileDigest = Sha256<string>

  datatype Batch = Batch(file: FileDigest, rowCount: nat, insertedCount: nat, existingCount: nat)

  datatype Customer = Customer(values: Values, batch: BatchId)

  datatype Tables = Tables(batches: map<BatchId, Batch>, customers: map<string, Customer>)

  datatype Outcome =
    | Imported | AlreadyImported | ValidationFailed | Conflict
    | ConfigurationError | MigrationRequired | DatabaseError

  datatype ImportResult = ImportResult(
    accepted: bool, status: Outcome, totalRows: nat, insertedRows: nat, existingRows: nat, issues: seq<Issue>)

  const OPERATION_FAILED := [Issue(None, Fault(InDatabase, OperationFailed), None)]
  const MIGRATION_REQUIRED := [Issue(None, Fault(InDatabase, MigrationMissing), None)]

  // ---- Specification ----

  /** Some batch already stands for this exact file. */
  predicate Known(batches: map<BatchId, Batch>, file: FileDigest) {
    exists b :: b in batches && batches[b].file == file
  }

  predicate Disagrees(customers: map<string, Customer>, record: ValidatedCustomer) {
    record.email in customers && customers[record.email].values != record.values
  }

  /** One issue for each record whose email belongs to a customer with other values, in file order. */
  function Conflicts(records: seq<ValidatedCustomer>, customers: map<string, Customer>): seq<Issue> {
    if records == [] then []
    else
      var last := records[|records| - 1];
      Conflicts(records[..|records| - 1], customers) +
      if Disagrees(customers, last)
      then [Issue(Some(last.rowNumber), Fault(Email, CustomerConflict), None)] else []
  }

  /** The records that are not customers yet, in file order. */
  function Newcomers(records: seq<ValidatedCustomer>, customers: map<string, Customer>): seq<ValidatedCustomer> {
    if records == [] then []
    else
      var last := records[|records| - 1];
      Newcomers(records[..|records| - 1], customers) + if last.email in customers then [] else [last]
  }

  function Inserted(customers: map<string, Customer>, records: seq<ValidatedCustomer>, batch: BatchId)
    : map<string, Customer>
  {
    if records == [] then customers
    else
      var last := records[|records| - 1];
      Inserted(customers, records[..|records| - 1], batch)[last.email := Customer(last.values, batch)]
  }

  /** The transaction of `import_validated_records`: tables after commit or rollback, and the result. */
  function ImportRecords(t: Tables, records: seq<ValidatedCustomer>, file: FileDigest, batch: BatchId)
    : (Tables, ImportResult)
  {
    var total, added := |records|, Newcomers(records, t.customers);
    if Known(t.batches, file) then
      (t, ImportResult(true, AlreadyImported, total, 0, total, []))
    else if Conflicts(records, t.customers) != [] then
      (t, ImportResult(false, Conflict, total, 0, 0, Conflicts(records, t.customers)))
    else if !DistinctEmails(added) then
      (t, ImportResult(false, DatabaseError, total, 0, 0, OPERATION_FAILED))
    else
      NewcomersAtMost(records, t.customers);
      (Tables(t.batches[batch := Batch(file, total, |added|, total - |added|)],
              Inserted(t.customers, added, batch)),
       ImportResult(true, Imported, total, |added|, total - |added|, []))
  }

  /** `import_csv`: a file with any issue never reaches the tables. */
  function ImportCsv(t: Tables, validation: ValidationResult, file: FileDigest, batch: BatchId)
    : (Tables, ImportResult)
  {
    if !validation.Accepted() then
      (t, ImportResult(false, ValidationFailed, validation.totalRows, 0, 0, validation.issues))
    else ImportRecords(t, validation.records, file, batch)
  }

  // ---- The store ----

  class CustomerStore {
    var batches: map<BatchId, Batch>
    var customers: map<string, Customer>

    function Contents(): Tables reads this { Tables(batches, customers) }

    method ConflictIssues(records: seq<ValidatedCustomer>) returns (conflicts: seq<Issue>)
      ensures conflicts == Conflicts(records, customers)
    {
      conflicts := [];
      for i := 0 to |records|
        invariant conflicts == Conflicts(records[..i], customers)
      {
        assert records[..i + 1][..i] == records[..i];
        var record := records[i];
        if record.email in customers && customers[record.email].values != record.values {
          conflicts := conflicts + [Issue(Some(record.rowNumber), Fault(Email, CustomerConflict), None)];
        }
      }
      assert records[..|records|] == records;
    }

    /** The filter over `existing_by_email`. */
    method NewRecords(records: seq<ValidatedCustomer>) returns (added: seq<ValidatedCustomer>)
      ensures added == Newcomers(records, customers)
    {
      added := [];
      for i := 0 to |records|
        invariant added == Newcomers(records[..i], customers)
      {
        assert records[..i + 1][..i] == records[..i];
        if records[i].email !in customers { added := added + [records[i]]; }
      }
      assert records[..|records|] == records;
    }

    /** `executemany`: fails on the first email that is already a customer. */
    method InsertCustomers(records: seq<ValidatedCustomer>, batch: BatchId) returns (ok: bool)
      requires forall i | 0 <= i < |records| :: records[i].email !in customers
      modifies this`customers
      ensures ok == DistinctEmails(records)
      ensures ok ==> customers == Inserted(old(customers), records, batch)
    {
      for i := 0 to |records|
        invariant DistinctEmails(records[..i])
        invariant customers == Inserted(old(customers), records[..i], batch)
      {
        assert records[..i + 1][..i] == records[..i];
        InsertedKeys(old(customers), records[..i], batch);
        DistinctStep(records, i);
        var record := records[i];
        if record.email in customers {
          DistinctPrefix(records, i + 1);
          return false;
        }
        customers := customers[record.email := Customer(record.values, batch)];
      }
      assert records[..|records|] == records;
      return true;
    }

    /** Opens the batch with zero counts, fills it, then updates the counts; any failure rolls back. */
    method ImportValidatedRecords(records: seq<ValidatedCustomer>, file: FileDigest, batch: BatchId)
      returns (result: ImportResult)
      requires batch !in batches
      modifies this
      ensures (Contents(), result) == ImportRecords(old(Contents()), records, file, batch)
    {
      hide Newcomers, Conflicts, Inserted;
      var total := |records|;
      if exists b :: b in batches && batches[b].file == file {
        return ImportResult(true, AlreadyImported, total, 0, total, []);
      }
      var savedBatches, savedCustomers := batches, customers;
      batches := batches[batch := Batch(file, total, 0, 0)];
      var conflicts := ConflictIssues(records);
      if conflicts != [] {
        batches := savedBatches;
        return ImportResult(false, Conflict, total, 0, 0, conflicts);
      }
      var added := NewRecords(records);
      NewcomersAtMost(records, customers);
      var ok := InsertCustomers(added, batch);
      if !ok {
        batches, customers := savedBatches, savedCustomers;
        return ImportResult(false, DatabaseError, total, 0, 0, OPERATION_FAILED);
      }
      batches := batches[batch := Batch(file, total, |added|, total - |added|)];
      assert batches == old(batches)[batch := Batch(file, total, |added|, total - |added|)];
      return ImportResult(true, Imported, total, |added|, total - |added|, []);
    }

    method ImportFile(u: Unicode, reading: Reading, file: FileDigest, batch: BatchId) returns (result: ImportResult)
      requires batch !in batches
      modifies this
      ensures (Contents(), result) == ImportCsv(old(Contents()), Validate(u, reading, MAX_ROWS), file, batch)
    {
      hide Validate, ImportRecords;
      var validation := ValidateCsv(u, reading, MAX_ROWS);
      if !validation.Accepted() {
        return ImportResult(false, ValidationFailed, validation.totalRows, 0, 0, validation.issues);
      }
      result := ImportValidatedRecords(validation.records, file, batch);
    }
  }

  // ---- What the pieces compute ----

  function Emails(records: seq<ValidatedCustomer>): set<string> {
    set i | 0 <= i < |records| :: records[i].email
  }

  lemma {:induction false} InsertedKeys(customers: map<string, Customer>, records: seq<ValidatedCustomer>,
                                        batch: BatchId)
    ensures Inserted(customers, records, batch).Keys == customers.Keys + Emails(records)
  {
    if records != [] {
      var init, last := records[..|records| - 1], records[|records| - 1];
      InsertedKeys(customers, init, batch);
      assert forall i | 0 <= i < |init| :: records[i] == init[i];
      assert Emails(records) == Emails(init) + {last.email};
    }
  }

  lemma DistinctStep(records: seq<ValidatedCustomer>, i: nat)
    requires i < |records|
    ensures DistinctEmails(records[..i + 1]) <==>
        DistinctEmails(records[..i]) && records[i].email !in Emails(records[..i])
  {
    var longer, shorter := records[..i + 1], records[..i];
    assert forall k | 0 <= k < i :: longer[k] == shorter[k];
    if records[i].email in Emails(shorter) {
      var k :| 0 <= k < i && shorter[k].email == records[i].email;
      assert longer[k].email == longer[i].email;
    }
  }

  lemma DistinctPrefix(records: seq<ValidatedCustomer>, i: nat)
    requires i <= |records|
    ensures DistinctEmails(records) ==> DistinctEmails(records[..i])
  {}

  lemma {:induction false} NewcomersAtMost(records: seq<ValidatedCustomer>, customers: map<string, Customer>)
    ensures |Newcomers(records, customers)| <= |records|
    ensures forall r | r in Newcomers(records, customers) :: r in records && r.email !in customers
    ensures forall r | r in records && r.email !in customers :: r in Newcomers(records, customers)
  {
    if records != [] {
      NewcomersAtMost(records[..|records| - 1], customers);
      assert records == records[..|records| - 1] + [records[|records| - 1]];
    }
  }

  lemma {:induction false} NewcomersDistinct(records: seq<ValidatedCustomer>, customers: map<string, Customer>)
    requires DistinctEmails(records)
    ensures DistinctEmails(Newcomers(records, customers))
  {
    if records != [] {
      var init := records[..|records| - 1];
      NewcomersDistinct(init, customers);
      NewcomersAtMost(init, customers);
    }
  }

  /** A conflict is reported exactly for the records that disagree with a stored customer. */
  lemma {:induction false} ConflictsAreDisagreements(records: seq<ValidatedCustomer>, customers: map<string, Customer>)
    ensures Conflicts(records, customers) == [] <==> forall r | r in records :: !Disagrees(customers, r)
    ensures forall r | r in records && Disagrees(customers, r) ::
              Issue(Some(r.rowNumber), Fault(Email, CustomerConflict), None) in Conflicts(records, customers)
    ensures forall i | i in Conflicts(records, customers) ::
              exists r :: && r in records && Disagrees(customers, r)
                          && i == Issue(Some(r.rowNumber), Fault(Email, CustomerConflict), None)
  {
    if records != [] {
      var init, last := records[..|records| - 1], records[|records| - 1];
      assert records == init + [last];
      ConflictsAreDisagreements(init, customers);
      forall i | i in Conflicts(records, customers)
        ensures exists r :: && r in records && Disagrees(customers, r)
                            && i == Issue(Some(r.rowNumber), Fault(Email, CustomerConflict), None)
      {
        if i in Conflicts(init, customers) {
          var r :| r in init && Disagrees(customers, r)
                   && i == Issue(Some(r.rowNumber), Fault(Email, CustomerConflict), None);
          assert r in records;
        } else {
          assert last in records && Disagrees(customers, last);
        }
      }
    }
  }

  /** Every customer afterwards is one of before, unchanged, or one of the given, in this batch. */
  lemma {:induction false} InsertedValues(customers: map<string, Customer>, records: seq<ValidatedCustomer>,
                                          batch: BatchId)
    requires DistinctEmails(records)
    requires forall r | r in records :: r.email !in customers
    ensures var after := Inserted(customers, records, batch);
            && (forall e | e in customers :: e in after && after[e] == customers[e])
            && (forall r | r in records :: r.email in after && after[r.email] == Customer(r.values, batch))
            && (forall e | e in after && e !in customers :: after[e].batch == batch)
  {
    if records != [] {
      var init, last := records[..|records| - 1], records[|records| - 1];
      assert records == init + [last];
      assert forall i | 0 <= i < |init| :: init[i] == records[i] && init[i].email != last.email;
      InsertedValues(customers, init, batch);
    }
  }

  lemma {:induction false} EmailsSize(records: seq<ValidatedCustomer>)
    requires DistinctEmails(records)
    ensures |Emails(records)| == |records|
  {
    if records != [] {
      var k := |records| - 1;
      EmailsSize(records[..k]);
      DistinctStep(records, k);
      assert records[..k + 1] == records;
      assert forall i | 0 <= i < k :: records[i] == records[..k][i];
      assert Emails(records) == Emails(records[..k]) + {records[k].email};
    }
  }

  lemma InsertedSize(customers: map<string, Customer>, records: seq<ValidatedCustomer>, batch: BatchId)
    requires DistinctEmails(records)
    requires forall r | r in records :: r.email !in customers
    ensures |Inserted(customers, records, batch)| == |customers| + |records|
  {
    hide Inserted;
    EmailsSize(records);
    InsertedKeys(customers, records, batch);
    assert customers.Keys !! Emails(records);
    assert |Inserted(customers, records, batch).Keys| == |customers.Keys| + |Emails(records)|;
  }

  // ---- Conservation ----

  /** The customers that a batch brought in. */
  function BroughtBy(customers: map<string, Customer>, batch: BatchId): set<string> {
    set e | e in customers && customers[e].batch == batch
  }

  function CountOf(batches: map<BatchId, Batch>): BatchId -> nat {
    b => if b in batches then batches[b].insertedCount else 0
  }

  ghost function InsertedTotal(batches: map<BatchId, Batch>): nat {
    Sum(batches.Keys, CountOf(batches))
  }

  /** One batch per file, counts that add up, and every customer accounted to exactly one batch. */
  ghost predicate Balanced(t: Tables) {
    && OneBatchPerFile(t.batches)
    && CountsAddUp(t.batches)
    && EachAccounted(t)
    && |t.customers| == InsertedTotal(t.batches)
  }

  predicate OneBatchPerFile(batches: map<BatchId, Batch>) {
    forall b, c | b in batches && c in batches && batches[b].file == batches[c].file :: b == c
  }

  predicate CountsAddUp(batches: map<BatchId, Batch>) {
    forall b | b in batches :: batches[b].insertedCount + batches[b].existingCount == batches[b].rowCount
  }

  predicate EachAccounted(t: Tables) {
    && (forall b | b in t.batches :: |BroughtBy(t.customers, b)| == t.batches[b].insertedCount)
    && (forall e | e in t.customers :: t.customers[e].batch in t.batches)
  }

  /** All of the records are customers, with these values. */
  predicate AllPresent(records: seq<ValidatedCustomer>, customers: map<string, Customer>) {
    forall r | r in records :: r.email in customers && customers[r.email].values == r.values
  }

  predicate Grows(before: Tables, after: Tables) {
    && (forall b | b in before.batches :: b in after.batches && after.batches[b] == before.batches[b])
    && (forall e | e in before.customers :: e in after.customers && after.customers[e] == before.customers[e])
  }

  lemma InsertedTotalAdds(batches: map<BatchId, Batch>, b: BatchId, batch: Batch)
    requires b !in batches
    ensures InsertedTotal(batches[b := batch]) == InsertedTotal(batches) + batch.insertedCount
  {
    var after := batches[b := batch];
    SumSplit(after.Keys, b, CountOf(after));
    assert after.Keys - {b} == batches.Keys;
    SumAgree(batches.Keys, CountOf(batches), CountOf(after));
  }

  lemma FreshBatchBroughtNothing(t: Tables, batch: BatchId)
    requires EachAccounted(t) && batch !in t.batches
    ensures BroughtBy(t.customers, batch) == {}
  {}

  /** The sizes of the per-batch customer sets after an insertion into a added batch. */
  lemma InsertionAccounts(t: Tables, added: seq<ValidatedCustomer>, batch: BatchId)
    requires EachAccounted(t) && batch !in t.batches && DistinctEmails(added)
    requires forall r | r in added :: r.email !in t.customers
    ensures var after := Inserted(t.customers, added, batch);
            && |BroughtBy(after, batch)| == |added|
            && forall b | b in t.batches :: BroughtBy(after, b) == BroughtBy(t.customers, b)
  {
    InsertedValues(t.customers, added, batch);
    InsertedSize(t.customers, added, batch);
    FreshBatchBroughtNothing(t, batch);
    var after := Inserted(t.customers, added, batch);
    assert BroughtBy(after, batch) == after.Keys - t.customers.Keys;
    SubsetDifference(t.customers.Keys, after.Keys);
    assert |after.Keys| == |after| && |t.customers.Keys| == |t.customers|;
  }

  lemma SubsetDifference<T>(part: set<T>, whole: set<T>)
    requires part <= whole
    ensures |whole - part| == |whole| - |part|
  {
    assert whole == part + (whole - part);
  }

  lemma CommitAccounts(t: Tables, added: seq<ValidatedCustomer>, batch: BatchId, row: Batch)
    requires EachAccounted(t) && batch !in t.batches && DistinctEmails(added) && row.insertedCount == |added|
    requires forall r | r in added :: r.email !in t.customers
    ensures EachAccounted(Tables(t.batches[batch := row], Inserted(t.customers, added, batch)))
  {
    InsertedValues(t.customers, added, batch);
    InsertionAccounts(t, added, batch);
  }

  /** The books after a batch of `added` newcomers and `total` rows commits. */
  lemma CommitKeepsBooks(t: Tables, added: seq<ValidatedCustomer>, file: FileDigest, batch: BatchId, total: nat)
    requires Balanced(t) && batch !in t.batches && !Known(t.batches, file)
    requires DistinctEmails(added) && |added| <= total
    requires forall r | r in added :: r.email !in t.customers
    ensures var after := Tables(t.batches[batch := Batch(file, total, |added|, total - |added|)],
                                Inserted(t.customers, added, batch));
            Balanced(after) && Grows(t, after) && |after.customers| == |t.customers| + |added|
  {
    hide EachAccounted, InsertedTotal, Inserted;
    CommitAccounts(t, added, batch, Batch(file, total, |added|, total - |added|));
    InsertedValues(t.customers, added, batch);
    InsertedSize(t.customers, added, batch);
    InsertedTotalAdds(t.batches, batch, Batch(file, total, |added|, total - |added|));
  }

  /** An import without conflicts leaves all of its records as customers. */
  lemma CommitStoresRecords(customers: map<string, Customer>, records: seq<ValidatedCustomer>, batch: BatchId)
    requires Conflicts(records, customers) == [] && DistinctEmails(Newcomers(records, customers))
    ensures AllPresent(records, Inserted(customers, Newcomers(records, customers), batch))
  {
    NewcomersAtMost(records, customers);
    InsertedValues(customers, Newcomers(records, customers), batch);
    ConflictsAreDisagreements(records, customers);
    forall r | r in records && r.email in customers ensures customers[r.email].values == r.values {
      assert !Disagrees(customers, r);
    }
  }

  /** Every import keeps the books balanced and only adds rows. */
  lemma ImportKeepsBooks(t: Tables, records: seq<ValidatedCustomer>, file: FileDigest, batch: BatchId)
    requires Balanced(t) && batch !in t.batches
    ensures var after := ImportRecords(t, records, file, batch).0; Balanced(after) && Grows(t, after)
  {
    hide Balanced, Newcomers, Inserted, Conflicts;
    var (after, result) := ImportRecords(t, records, file, batch);
    if result.status.Imported? {
      var added, total := Newcomers(records, t.customers), |records|;
      NewcomersAtMost(records, t.customers);
      CommitKeepsBooks(t, added, file, batch, total);
    } else {
      assert after == t;
    }
  }

  /** An import does all of its work or none of it, and its counts describe what it did. */
  lemma AllOrNothing(t: Tables, records: seq<ValidatedCustomer>, file: FileDigest, batch: BatchId)
    requires batch !in t.batches
    ensures var (after, result) := ImportRecords(t, records, file, batch);
            && result.totalRows == |records|
            && (result.accepted <==> Known(after.batches, file))
            && (result.accepted ==> result.insertedRows + result.existingRows == |records|)
            && (result.status.Imported? ==>
                  && result.accepted && !Known(t.batches, file)
                  && AllPresent(records, after.customers)
                  && after.batches == t.batches[batch := Batch(file, |records|, result.insertedRows,
                                                               result.existingRows)]
                  && |after.customers| == |t.customers| + result.insertedRows)
            && (!result.status.Imported? ==>
                  && after == t && result.insertedRows == 0
                  && (result.accepted <==> result.status.AlreadyImported?))
  {
    hide Newcomers, Inserted, Conflicts;
    var (after, result) := ImportRecords(t, records, file, batch);
    if result.status.Imported? {
      var added := Newcomers(records, t.customers);
      NewcomersAtMost(records, t.customers);
      CommitStoresRecords(t.customers, records, batch);
      InsertedSize(t.customers, added, batch);
      assert after.batches[batch].file == file;
    }
  }

  /** With distinct emails the outcome is decided by the file and by stored customers with other values alone. */
  lemma ImportOutcome(t: Tables, records: seq<ValidatedCustomer>, file: FileDigest, batch: BatchId)
    requires DistinctEmails(records)
    ensures var status := ImportRecords(t, records, file, batch).1.status;
            var known := exists b :: b in t.batches && t.batches[b].file == file;
            var contradicted := exists r :: r in records && r.email in t.customers
                                            && t.customers[r.email].values != r.values;
            && (status.AlreadyImported? <==> known)
            && (status.Conflict? <==> !known && contradicted)
            && (status.Imported? <==> !known && !contradicted)
  {
    assert forall r | r in records ::
        Disagrees(t.customers, r) <==> r.email in t.customers && t.customers[r.email].values != r.values;
    ConflictsAreDisagreements(records, t.customers);
    NewcomersDistinct(records, t.customers);
  }

  predicate RowsAscend(records: seq<ValidatedCustomer>) {
    forall i, j | 0 <= i < j < |records| :: records[i].rowNumber < records[j].rowNumber
  }

  predicate IssuesAscend(issues: seq<Issue>) {
    forall i, j | 0 <= i < j < |issues| ::
      issues[i].row.Some? && issues[j].row.Some? && issues[i].row.value < issues[j].row.value
  }

  /** Conflicts come in the order of their rows. */
  lemma {:induction false} ConflictsInOrder(records: seq<ValidatedCustomer>, customers: map<string, Customer>)
    requires RowsAscend(records)
    ensures IssuesAscend(Conflicts(records, customers))
    ensures forall i | 0 <= i < |Conflicts(records, customers)| ::
              && records != [] && Conflicts(records, customers)[i].row.Some?
              && Conflicts(records, customers)[i].row.value <= records[|records| - 1].rowNumber
  {
    hide Disagrees;
    if records != [] {
      var n := |records| - 1;
      var earlier := Conflicts(records[..n], customers);
      ConflictsInOrder(records[..n], customers);
      forall i | 0 <= i < |earlier| ensures earlier[i].row.Some? && earlier[i].row.value < records[n].rowNumber {
        assert records[..n][n - 1] == records[n - 1];
      }
    }
  }

  /**
   * What an import reports. A known file counts every row as existing; a contradicted one is refused with one
   * issue for each record whose stored customer has other values, in the order of the rows; otherwise the rows
   * divide into the customers added and those that were there.
   */
  lemma ImportReports(t: Tables, records: seq<ValidatedCustomer>, file: FileDigest, batch: BatchId)
    requires DistinctEmails(records) && batch !in t.batches && RowsAscend(records)
    ensures var (after, result) := ImportRecords(t, records, file, batch);
            && result.totalRows == |records|
            && (result.status.AlreadyImported? ==>
                  && result.accepted && result.insertedRows == 0
                  && result.existingRows == |records| && result.issues == [])
            && (result.status.Conflict? ==>
                  && !result.accepted && result.insertedRows == 0 && result.existingRows == 0
                  && (forall r | r in records && r.email in t.customers && t.customers[r.email].values != r.values ::
                        Issue(Some(r.rowNumber), Fault(Email, CustomerConflict), None) in result.issues)
                  && (forall i | i in result.issues ::
                        exists r :: && r in records && r.email in t.customers
                                    && t.customers[r.email].values != r.values
                                    && i == Issue(Some(r.rowNumber), Fault(Email, CustomerConflict), None))
                  && IssuesAscend(result.issues))
            && (result.status.Imported? ==>
                  && result.accepted && result.issues == []
                  && |after.customers| == |t.customers| + result.insertedRows
                  && result.existingRows == |records| - result.insertedRows)
            && (result.status.AlreadyImported? || result.status.Conflict? || result.status.Imported?)
  {
    hide Newcomers, Inserted, Conflicts, Known;
    AllOrNothing(t, records, file, batch);
    ImportOutcome(t, records, file, batch);
    ConflictsAreDisagreements(records, t.customers);
    ConflictsInOrder(records, t.customers);
  }

  /** Importing the same file again changes nothing and reports every row as existing. */
  lemma ReimportIsNoOp(t: Tables, records: seq<ValidatedCustomer>, file: FileDigest, batch: BatchId, again: BatchId)
    requires batch !in t.batches
    requires ImportRecords(t, records, file, batch).1.accepted
    ensures var after := ImportRecords(t, records, file, batch).0;
            ImportRecords(after, records, file, again)
            == (after, ImportResult(true, AlreadyImported, |records|, 0, |records|, []))
  {
    AllOrNothing(t, records, file, batch);
  }
}
