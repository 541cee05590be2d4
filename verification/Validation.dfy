/** Strict whole-file validation of the customer CSV. */
module Validation {
  import opened Common
  import opened Counting
  import opened Text
  import opened RowScan

  const EXPECTED_FIELDS: seq<string> := ["email", "first_name", "last_name", "phone", "source"]
  const MAX_FILE_BYTES: nat := 10 * 1024 * 1024
  const MAX_ROWS: nat := 10_000

  datatype ValidationResult = ValidationResult(
    totalRows: nat, validRows: nat, issues: seq<Issue>, records: seq<ValidatedCustomer>)
  {
    predicate Accepted() { issues == [] }
  }

  /** The parts of Unicode the validators consult: case folding, visibility, decimal digits. */
  datatype Unicode = Unicode(casefold: string -> string, printable: string -> bool, decimal: char -> bool)

  datatype ReadError = BadEncoding | Malformed

  /** What opening and reading the file gives, up to the point where reading stops. */
  datatype Reading =
    | NotReadable
    | BrokenHeader(bytes: nat, fault: ReadError)
    | Readable(bytes: nat, header: Option<seq<string>>, rows: seq<Row>, stop: Option<ReadError>)

  // ---- Field validators ----

  function Cell(row: Row, name: string): string {
    if name in row.cells then row.cells[name] else ""
  }

  /** `[^@\s]+@[^@\s]+\.[^@\s]+`, matched against the whole text. */
  predicate EmailShape(s: string) {
    exists at, dot :: 0 < at && at + 1 < dot && dot + 1 < |s| && s[at] == '@' && s[dot] == '.' &&
                      forall k :: 0 <= k < |s| && k != at ==> s[k] != '@' && !IsSpace(s[k])
  }

  /** `\+[1-9]\d{7,14}`, matched against the whole text. */
  predicate PhoneShape(u: Unicode, s: string) {
    && 9 <= |s| <= 16 && s[0] == '+' && '1' <= s[1] <= '9'
    && forall k | 2 <= k < |s| :: u.decimal(s[k])
  }

  function ValidateEmail(u: Unicode, value: string): (string, seq<Fault>) {
    var normalized := u.casefold(Strip(value));
    (normalized,
     if normalized == "" then [Fault(Email, Required)]
     else if |normalized| > 254 || !EmailShape(normalized) then [Fault(Email, InvalidFormat)]
     else [])
  }

  /** Names and sources: required, visible, and no longer than the column. */
  function ValidateVisible(u: Unicode, normalized: string, field: Field, longest: nat): seq<Fault> {
    if normalized == "" then [Fault(field, Required)]
    else if |normalized| > longest || !u.printable(normalized) then [Fault(field, InvalidText)]
    else []
  }

  function ValidatePhone(u: Unicode, normalized: string): seq<Fault> {
    if normalized != "" && !PhoneShape(u, normalized) then [Fault(Phone, InvalidFormat)] else []
  }

  function NormalizedValues(u: Unicode, row: Row): Values {
    Values(NormalizeText(Cell(row, "first_name")),
           NormalizeText(Cell(row, "last_name")),
           Strip(Cell(row, "phone")),
           u.casefold(NormalizeText(Cell(row, "source"))))
  }

  function RowFaults(u: Unicode, row: Row): seq<Fault> {
    var values := NormalizedValues(u, row);
    (if row.extra then [Fault(InRow, ExtraValues)] else []) +
    ValidateEmail(u, Cell(row, "email")).1 +
    ValidateVisible(u, values.firstName, FirstName, 80) +
    ValidateVisible(u, values.lastName, LastName, 80) +
    ValidatePhone(u, values.phone) +
    ValidateVisible(u, values.source, Source, 50)
  }

  function ValidEmail(u: Unicode, row: Row): Option<string> {
    var (email, faults) := ValidateEmail(u, Cell(row, "email"));
    if faults == [] then Some(email) else None
  }

  function FieldRules(u: Unicode): Rules {
    Rules(row => RowFaults(u, row), row => ValidEmail(u, row), row => NormalizedValues(u, row))
  }

  lemma FieldRulesCoherent(u: Unicode)
    ensures Coherent(FieldRules(u))
  {
    forall row | FieldRules(u).faults(row) == []
      ensures FieldRules(u).email(row).Some?
    {
      assert RowFaults(u, row) == [];
      assert |ValidateEmail(u, Cell(row, "email")).1| <= |RowFaults(u, row)|;
    }
  }

  // ---- The header ----

  /** Three tests: no column repeated, none of the expected missing, none unexpected. */
  function HeaderIssues(expected: seq<string>, names: seq<string>): seq<Issue> {
    (if exists i, j :: 0 <= i < j < |names| && names[i] == names[j]
     then [Issue(None, Fault(InHeader, DuplicateColumns), None)] else []) +
    (if exists f :: f in expected && f !in names
     then [Issue(None, Fault(InHeader, MissingColumns), None)] else []) +
    (if exists n :: n in names && n !in expected
     then [Issue(None, Fault(InHeader, UnexpectedColumns), None)] else [])
  }

  function ValidateHeaders(header: Option<seq<string>>): seq<Issue> {
    match header
    case None => [Issue(None, Fault(InHeader, MissingHeader), None)]
    case Some(names) => HeaderIssues(EXPECTED_FIELDS, names)
  }

  lemma {:induction false} DistinctMultiset(s: seq<string>)
    ensures Distinct(s) <==> forall x | x in s :: multiset(s)[x] == 1
  {
    if s != [] {
      var last := |s| - 1;
      var init := s[..last];
      DistinctMultiset(init);
      assert s == init + [s[last]];
      if Distinct(s) {
        assert Distinct(init);
      } else if Distinct(init) {
        var i, j :| 0 <= i < j < |s| && s[i] == s[j];
        assert s[last] == init[i];
        assert multiset(s)[s[last]] == 2;
      } else {
        var x :| x in init && multiset(init)[x] != 1;
        assert x in multiset(init);
        assert multiset(s)[x] >= 2;
      }
    }
  }

  /** The three tests together accept exactly the permutations of the expected columns. */
  lemma HeadersAccepted(expected: seq<string>, names: seq<string>)
    requires Distinct(expected)
    ensures HeaderIssues(expected, names) == [] <==> multiset(names) == multiset(expected)
  {
    DistinctMultiset(names);
    DistinctMultiset(expected);
    assert Distinct(names) <==> !exists i, j :: 0 <= i < j < |names| && names[i] == names[j];
    if HeaderIssues(expected, names) == [] {
      forall f ensures multiset(names)[f] == multiset(expected)[f] {
        assert f in names <==> f in expected;
        assert f !in names ==> f !in multiset(names) && f !in multiset(expected);
      }
    }
    if multiset(names) == multiset(expected) {
      forall f ensures f in names <==> f in expected {
        assert f in multiset(names) <==> f in multiset(expected);
      }
    }
  }

  // ---- The whole file ----

  function ReadIssue(fault: ReadError): seq<Issue> {
    [Issue(None, Fault(InFile, if fault.BadEncoding? then InvalidEncoding else MalformedCsv), None)]
  }

  function Refused(code: Code): ValidationResult {
    ValidationResult(0, 0, [Issue(None, Fault(InFile, code), None)], [])
  }

  /** What `validate_csv` returns for a reading of the file. */
  function Validate(u: Unicode, reading: Reading, maxRows: nat): ValidationResult {
    if reading.NotReadable? then Refused(Unreadable)
    else if reading.bytes > MAX_FILE_BYTES then Refused(TooLarge)
    else if reading.BrokenHeader? then ValidationResult(0, 0, ReadIssue(reading.fault), [])
    else if ValidateHeaders(reading.header) != [] then
      ValidationResult(0, 0, ValidateHeaders(reading.header), [])
    else if |reading.rows| > maxRows then
      var scan := ScanPrefix(FieldRules(u), reading.rows, maxRows);
      ValidationResult(maxRows + 1, scan.valid, scan.issues + [Issue(None, TOO_MANY_ROWS, None)], [])
    else
      var scan := ScanPrefix(FieldRules(u), reading.rows, |reading.rows|);
      var issues := scan.issues + if reading.stop.Some? then ReadIssue(reading.stop.value) else [];
      ValidationResult(|reading.rows|, scan.valid, issues, if issues == [] then scan.records else [])
  }

  method ValidateCsv(u: Unicode, reading: Reading, maxRows: nat) returns (result: ValidationResult)
    ensures result == Validate(u, reading, maxRows)
  {
    if reading.NotReadable? { return Refused(Unreadable); }
    if reading.bytes > MAX_FILE_BYTES { return Refused(TooLarge); }
    if reading.BrokenHeader? { return ValidationResult(0, 0, ReadIssue(reading.fault), []); }
    var headerIssues := ValidateHeaders(reading.header);
    if headerIssues != [] { return ValidationResult(0, 0, headerIssues, []); }
    var total, scan := ScanRows(FieldRules(u), reading.rows, maxRows);
    var issues := scan.issues;
    if total == |reading.rows| && total <= maxRows && reading.stop.Some? {
      issues := issues + ReadIssue(reading.stop.value);
    }
    return ValidationResult(total, scan.valid, issues, if issues == [] then scan.records else []);
  }

  /** The file the importer may trust, defined without the loop. */
  predicate CleanFile(u: Unicode, reading: Reading, maxRows: nat) {
    && reading.Readable? && reading.bytes <= MAX_FILE_BYTES
    && reading.header.Some? && multiset(reading.header.value) == multiset(EXPECTED_FIELDS)
    && reading.stop.None? && |reading.rows| <= maxRows
    && RowsOk(FieldRules(u), reading.rows, |reading.rows|)
  }

  /** Acceptance is exactly cleanliness; the records are then the normalised rows, numbered from 2. */
  lemma AcceptedIffClean(u: Unicode, reading: Reading, maxRows: nat)
    ensures var result := Validate(u, reading, maxRows);
            && (result.Accepted() <==> CleanFile(u, reading, maxRows))
            && (result.Accepted() ==>
                  && result.totalRows == result.validRows == |result.records| == |reading.rows| <= maxRows
                  && DistinctEmails(result.records)
                  && forall i | 0 <= i < |result.records| ::
                       result.records[i] == ValidatedCustomer(
                         EmailOr(FieldRules(u), reading.rows[i]), FieldRules(u).values(reading.rows[i]), i + 2))
            && (!result.Accepted() ==> result.records == [])
  {
    hide FieldRules, RowsOk, ScanPrefix, Coherent, DistinctEmails, HeaderIssues;
    if reading.Readable? {
      var rules := FieldRules(u);
      HeaderAccepted(reading.header);
      FieldRulesCoherent(u);
      if |reading.rows| <= maxRows {
        ScanFindsNothing(rules, reading.rows, |reading.rows|);
        if RowsOk(rules, reading.rows, |reading.rows|) {
          FineRowsHaveDistinctEmails(rules, reading.rows, |reading.rows|);
        }
      }
    }
  }

  lemma HeaderAccepted(header: Option<seq<string>>)
    ensures ValidateHeaders(header) == [] <==>
            header.Some? && multiset(header.value) == multiset(EXPECTED_FIELDS)
  {
    if header.Some? {
      assert Distinct(EXPECTED_FIELDS);
      HeadersAccepted(EXPECTED_FIELDS, header.value);
    }
  }

  // ---- What each field must be ----

  /** Which column becomes which field: words joined by single spaces, only the source folded, the phone stripped. */
  lemma ColumnsBecomeFields(u: Unicode, row: Row)
    ensures var v := FieldRules(u).values(row);
            && v.firstName == Join(Words(Cell(row, "first_name")))
            && v.lastName == Join(Words(Cell(row, "last_name")))
            && v.phone == Strip(Cell(row, "phone"))
            && v.source == u.casefold(Join(Words(Cell(row, "source"))))
    ensures FieldRules(u).email(row).Some? ==> FieldRules(u).email(row).value == u.casefold(Strip(Cell(row, "email")))
  {
    hide Words, Join, Strip, NormalizeText, Cell, EmailShape;
    NormalizeJoinsWords(Cell(row, "first_name"));
    NormalizeJoinsWords(Cell(row, "last_name"));
    NormalizeJoinsWords(Cell(row, "source"));
  }

  /** One part before a single at sign, and after it a domain with a full stop inside; no blanks anywhere. */
  ghost predicate IsAddress(s: string) {
    exists local, domain, top ::
      && s == local + "@" + domain + "." + top && local != "" && domain != "" && top != ""
      && Unbroken(local) && Unbroken(domain) && Unbroken(top)
  }

  predicate Unbroken(s: string) { forall k | 0 <= k < |s| :: s[k] != '@' && !IsSpace(s[k]) }

  lemma EmailShapeIsAddress(s: string)
    ensures EmailShape(s) <==> IsAddress(s)
  {
    hide IsSpace;
    if EmailShape(s) {
      var at, dot :| 0 < at && at + 1 < dot && dot + 1 < |s| && s[at] == '@' && s[dot] == '.' &&
                     forall k :: 0 <= k < |s| && k != at ==> s[k] != '@' && !IsSpace(s[k]);
      ShapeAddress(s, at, dot);
    }
    if IsAddress(s) {
      var local, domain, top :|
        && s == local + "@" + domain + "." + top && local != "" && domain != "" && top != ""
        && Unbroken(local) && Unbroken(domain) && Unbroken(top);
      AddressShape(local, domain, top);
    }
  }

  lemma ShapeAddress(s: string, at: nat, dot: nat)
    requires 0 < at && at + 1 < dot && dot + 1 < |s| && s[at] == '@' && s[dot] == '.'
    requires forall k | 0 <= k < |s| && k != at :: s[k] != '@' && !IsSpace(s[k])
    ensures IsAddress(s)
  {
    hide IsSpace;
    var local, domain, top := s[..at], s[at + 1..dot], s[dot + 1..];
    assert s == local + "@" + domain + "." + top;
    assert Unbroken(local) && Unbroken(domain) && Unbroken(top);
  }

  lemma AddressShape(local: string, domain: string, top: string)
    requires local != "" && domain != "" && top != "" && Unbroken(local) && Unbroken(domain) && Unbroken(top)
    ensures EmailShape(local + "@" + domain + "." + top)
  {
    var s := local + "@" + domain + "." + top;
    var at, dot := |local|, |local| + 1 + |domain|;
    assert !IsSpace('.');
    assert s[at] == '@' && s[dot] == '.';
    forall k | 0 <= k < |s| && k != at ensures s[k] != '@' && !IsSpace(s[k]) {
      if k < at { assert s[k] == local[k]; }
      else if k < dot { assert s[k] == domain[k - at - 1]; }
      else if k > dot { assert s[k] == top[k - dot - 1]; }
    }
  }

  /** A plus sign, a digit from 1 to 9, and 7 to 14 digits. */
  predicate IsPhone(u: Unicode, s: string) {
    && 9 <= |s| <= 16 && s[0] == '+' && s[1] in "123456789" && forall k | 2 <= k < |s| :: u.decimal(s[k])
  }

  /** Which faults a row has, each exactly when its field breaks its rule. */
  lemma FaultsDecided(u: Unicode, row: Row)
    ensures var v, faults := FieldRules(u).values(row), FieldRules(u).faults(row);
            var email := u.casefold(Strip(Cell(row, "email")));
            && (Fault(InRow, ExtraValues) in faults <==> row.extra)
            && (Fault(Email, Required) in faults <==> email == "")
            && (Fault(Email, InvalidFormat) in faults <==> email != "" && (|email| > 254 || !IsAddress(email)))
            && (Fault(FirstName, Required) in faults <==> v.firstName == "")
            && (Fault(FirstName, InvalidText) in faults
                <==> v.firstName != "" && (|v.firstName| > 80 || !u.printable(v.firstName)))
            && (Fault(LastName, Required) in faults <==> v.lastName == "")
            && (Fault(LastName, InvalidText) in faults
                <==> v.lastName != "" && (|v.lastName| > 80 || !u.printable(v.lastName)))
            && (Fault(Phone, InvalidFormat) in faults <==> v.phone != "" && !IsPhone(u, v.phone))
            && (Fault(Source, Required) in faults <==> v.source == "")
            && (Fault(Source, InvalidText) in faults
                <==> v.source != "" && (|v.source| > 50 || !u.printable(v.source)))
  {
    hide NormalizeText, Strip, IsAddress, EmailShape, PhoneShape, IsPhone, RowFaults, ValidateEmail, ValidateVisible,
         ValidatePhone;
    var v := FieldRules(u).values(row);
    EmailFaults(u, Cell(row, "email"));
    VisibleFaults(u, v.firstName, FirstName, 80);
    VisibleFaults(u, v.lastName, LastName, 80);
    VisibleFaults(u, v.source, Source, 50);
    PhoneFaults(u, v.phone);
    forall f ensures f in RowFaults(u, row) <==> FaultOf(u, row, f) { FaultsInParts(u, row, f); }
  }

  /** The fault comes from one of the checks. */
  predicate FaultOf(u: Unicode, row: Row, f: Fault) {
    var v := NormalizedValues(u, row);
    || (row.extra && f == Fault(InRow, ExtraValues))
    || f in ValidateEmail(u, Cell(row, "email")).1
    || f in ValidateVisible(u, v.firstName, FirstName, 80)
    || f in ValidateVisible(u, v.lastName, LastName, 80)
    || f in ValidatePhone(u, v.phone)
    || f in ValidateVisible(u, v.source, Source, 50)
  }

  lemma FaultsInParts(u: Unicode, row: Row, f: Fault)
    ensures f in RowFaults(u, row) <==> FaultOf(u, row, f)
  {
    hide NormalizedValues, ValidateEmail, ValidateVisible, ValidatePhone;
  }

  lemma EmailFaults(u: Unicode, value: string)
    ensures var email, faults := u.casefold(Strip(value)), ValidateEmail(u, value).1;
            && (Fault(Email, Required) in faults <==> email == "")
            && (Fault(Email, InvalidFormat) in faults <==> email != "" && (|email| > 254 || !IsAddress(email)))
            && (forall f | f in faults :: f.field == Email)
            && (faults == [] <==> email != "" && |email| <= 254 && IsAddress(email))
  {
    hide EmailShape, IsAddress, Strip;
    EmailShapeIsAddress(u.casefold(Strip(value)));
  }

  lemma VisibleFaults(u: Unicode, text: string, field: Field, longest: nat)
    ensures var faults := ValidateVisible(u, text, field, longest);
            && (Fault(field, Required) in faults <==> text == "")
            && (Fault(field, InvalidText) in faults <==> text != "" && (|text| > longest || !u.printable(text)))
            && (forall f | f in faults :: f.field == field)
  {}

  lemma PhoneFaults(u: Unicode, text: string)
    ensures var faults := ValidatePhone(u, text);
            && (Fault(Phone, InvalidFormat) in faults <==> text != "" && !IsPhone(u, text))
            && (forall f | f in faults :: f.field == Phone)
  {
    hide PhoneShape, IsPhone;
    PhoneShapeIsPhone(u, text);
  }

  lemma PhoneShapeIsPhone(u: Unicode, s: string)
    ensures PhoneShape(u, s) <==> IsPhone(u, s)
  {}

  /** A row counts for duplicates under its email, if that is in order. */
  lemma EmailDecided(u: Unicode, row: Row)
    ensures var email := u.casefold(Strip(Cell(row, "email")));
            FieldRules(u).email(row)
            == if email != "" && |email| <= 254 && IsAddress(email) then Some(email) else None
  {
    hide IsAddress, EmailShape, Strip;
    EmailFaults(u, Cell(row, "email"));
  }

  /** The order in which a row's checks report. */
  function Turn(field: Field): nat {
    match field
    case InRow => 0
    case Email => 1
    case FirstName => 2
    case LastName => 3
    case Phone => 4
    case Source => 5
    case _ => 6
  }

  /** At most one fault for each field, in the order of the checks. */
  lemma FaultsInOrder(u: Unicode, row: Row)
    ensures var faults := FieldRules(u).faults(row);
            forall i, j | 0 <= i < j < |faults| :: Turn(faults[i].field) < Turn(faults[j].field)
  {
    hide NormalizedValues, ValidateEmail, ValidateVisible, ValidatePhone, InTurn, One;
    var v, email := NormalizedValues(u, row), ValidateEmail(u, Cell(row, "email")).1;
    AtMostOne(u, Cell(row, "email"), v);
    var extra := if row.extra then [Fault(InRow, ExtraValues)] else [];
    var first, last := ValidateVisible(u, v.firstName, FirstName, 80), ValidateVisible(u, v.lastName, LastName, 80);
    ExtraComesFirst(row.extra);
    NextTurn(extra, email, Email);
    NextTurn(extra + email, first, FirstName);
    NextTurn(extra + email + first, last, LastName);
    var phone, source := ValidatePhone(u, v.phone), ValidateVisible(u, v.source, Source, 50);
    NextTurn(extra + email + first + last, phone, Phone);
    NextTurn(extra + email + first + last + phone, source, Source);
    TurnsAscend(FieldRules(u).faults(row), 5);
  }

  lemma ExtraComesFirst(extra: bool)
    ensures InTurn(if extra then [Fault(InRow, ExtraValues)] else [], 0)
  {}

  lemma NextTurn(earlier: seq<Fault>, faults: seq<Fault>, field: Field)
    requires Turn(field) > 0 && InTurn(earlier, Turn(field) - 1) && One(faults, field)
    ensures InTurn(earlier + faults, Turn(field))
  {}

  lemma TurnsAscend(faults: seq<Fault>, turn: nat)
    requires InTurn(faults, turn)
    ensures forall i, j | 0 <= i < j < |faults| :: Turn(faults[i].field) < Turn(faults[j].field)
  {}

  /** In strictly ascending turns up to this one. */
  predicate InTurn(faults: seq<Fault>, turn: nat) {
    && (forall i | 0 <= i < |faults| :: Turn(faults[i].field) <= turn)
    && forall i, j | 0 <= i < j < |faults| :: Turn(faults[i].field) < Turn(faults[j].field)
  }

  predicate One(faults: seq<Fault>, field: Field) {
    |faults| <= 1 && forall i | 0 <= i < |faults| :: faults[i].field == field
  }

  lemma AtMostOne(u: Unicode, email: string, v: Values)
    ensures One(ValidateEmail(u, email).1, Email) && One(ValidatePhone(u, v.phone), Phone)
    ensures One(ValidateVisible(u, v.firstName, FirstName, 80), FirstName)
    ensures One(ValidateVisible(u, v.lastName, LastName, 80), LastName)
    ensures One(ValidateVisible(u, v.source, Source, 50), Source)
  {
    hide EmailShape, PhoneShape, Strip;
  }

  /** Which header issues there are, each exactly when its test fails. */
  lemma HeaderDecided(names: seq<string>)
    ensures var issues := ValidateHeaders(Some(names));
            && (Issue(None, Fault(InHeader, DuplicateColumns), None) in issues
                <==> exists i, j :: 0 <= i < j < |names| && names[i] == names[j])
            && (Issue(None, Fault(InHeader, MissingColumns), None) in issues
                <==> exists f :: f in ["email", "first_name", "last_name", "phone", "source"] && f !in names)
            && (Issue(None, Fault(InHeader, UnexpectedColumns), None) in issues
                <==> exists n :: n in names && n !in ["email", "first_name", "last_name", "phone", "source"])
            && |issues| <= 3
    ensures ValidateHeaders(None) == [Issue(None, Fault(InHeader, MissingHeader), None)]
  {}

  /** What a file that never gets to its rows is refused with, and how the rows are counted otherwise. */
  lemma ReadingDecided(u: Unicode, reading: Reading, maxRows: nat)
    ensures var result := Validate(u, reading, maxRows);
            match reading
            case NotReadable => Only(result, Unreadable)
            case BrokenHeader(bytes, fault) =>
              if bytes > 10_485_760 then Only(result, TooLarge)
              else Only(result, if fault == BadEncoding then InvalidEncoding else MalformedCsv)
            case Readable(bytes, header, rows, stop) =>
              if bytes > 10_485_760 then Only(result, TooLarge)
              else if ValidateHeaders(header) != [] then
                && result.issues == ValidateHeaders(header)
                && result.totalRows == 0 == result.validRows && result.records == []
              else
                && result.totalRows == (if |rows| > maxRows then maxRows + 1 else |rows|)
                && (Issue(None, Fault(InFile, TooManyRows), None) in result.issues <==> |rows| > maxRows)
                && (Issue(None, Fault(InFile, InvalidEncoding), None) in result.issues
                    <==> |rows| <= maxRows && stop == Some(BadEncoding))
                && (Issue(None, Fault(InFile, MalformedCsv), None) in result.issues
                    <==> |rows| <= maxRows && stop == Some(Malformed))
                && result.validRows <= result.totalRows
                && (result.issues != [] ==> result.records == [])
                && (forall i | 0 <= i < |result.issues| - 1 :: result.issues[i].row.Some?)
  {
    hide FieldRules, ScanPrefix, ValidateHeaders;
    if reading.Readable? {
      var k := if |reading.rows| > maxRows then maxRows else |reading.rows|;
      IssuesInRowOrder(FieldRules(u), reading.rows, k);
      ValidCounted(FieldRules(u), reading.rows, k);
    }
  }

  /** In a file whose rows are read, the rows' issues are their faults and the later duplicates, up to the limit. */
  lemma RowIssuesDecided(u: Unicode, reading: Reading, maxRows: nat, n: nat, f: Fault, first: Option<nat>)
    requires reading.Readable? && reading.bytes <= 10_485_760 && ValidateHeaders(reading.header) == []
    ensures var rules, rows := FieldRules(u), reading.rows;
            var k := if |rows| > maxRows then maxRows else |rows|;
            Issue(Some(n), f, first) in Validate(u, reading, maxRows).issues <==>
              && 2 <= n < k + 2
              && (|| (first.None? && f in rules.faults(rows[n - 2]))
                  || (f == Fault(Email, DuplicateInFile) && first.Some? && rules.email(rows[n - 2]).Some?
                      && first.value < n && FirstRowWith(rules, rows, k, rules.email(rows[n - 2]).value, first.value)))
  {
    hide FieldRules, ScanPrefix, ValidateHeaders, FirstRowWith;
    var k := if |reading.rows| > maxRows then maxRows else |reading.rows|;
    IssuesAreFaults(FieldRules(u), reading.rows, k, n, f, first);
  }

  predicate Only(result: ValidationResult, code: Code) {
    result == ValidationResult(0, 0, [Issue(None, Fault(InFile, code), None)], [])
  }

  lemma {:induction false} ValidCounted(rules: Rules, rows: seq<Row>, k: nat)
    requires k <= |rows|
    ensures ScanPrefix(rules, rows, k).valid <= k
  {
    if k > 0 { ValidCounted(rules, rows, k - 1); }
  }
}
