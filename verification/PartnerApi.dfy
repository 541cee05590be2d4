/** The receiving side: one receipt for each event, whatever the number of deliveries. */
module PartnerApi {
  import opened Common
  import opened Importer
  import opened IntegrationStore

  datatype Json = Number(n: nat) | Text(s: string) | Identifier(id: nat) | Instant(t: Timestamp) | Word(w: Outcome)

  /** A canonical JSON document: its members in ascending order of name. */
  type Body = seq<(string, Json)>

  /** `json.dumps(payload, sort_keys=True)`. */
  function CanonicalBody(p: Payload): Body {
    [("event_id", Identifier(p.eventId)),
     ("event_type", Text("customer_import.completed")),
     ("existing_rows", Number(p.existingRows)),
     ("inserted_rows", Number(p.insertedRows)),
     ("occurred_at", Instant(p.occurredAt)),
     ("operation_id", Identifier(p.operationId)),
     ("schema_version", Text("1.0")),
     ("status", Word(p.importStatus)),
     ("total_rows", Number(p.totalRows))]
  }

  /** Nothing in the payload is lost in the body. */
  lemma CanonicalBodyFaithful(p: Payload, q: Payload)
    ensures CanonicalBody(p) == CanonicalBody(q) <==> p == q
  {
    if CanonicalBody(p) == CanonicalBody(q) {
      assert forall i | 0 <= i < 9 :: CanonicalBody(p)[i] == CanonicalBody(q)[i];
      assert CanonicalBody(p)[0].1 == CanonicalBody(q)[0].1;
    }
  }

  function MemberOf(body: Body, name: string): Option<Json> {
    if body == [] then None else if body[0].0 == name then Some(body[0].1) else MemberOf(body[1..], name)
  }

  /** The order of names: by the first character in which they differ. */
  predicate Precedes(a: string, b: string) {
    exists k :: 0 <= k < |a| && k < |b| && a[..k] == b[..k] && a[k] < b[k]
  }

  lemma FirstDifference(a: string, b: string, k: nat)
    requires k < |a| && k < |b| && a[..k] == b[..k] && a[k] < b[k]
    ensures Precedes(a, b)
  {}

  lemma {:induction false} Found(body: Body, i: nat)
    requires i < |body| && forall j | 0 <= j < i :: body[j].0 != body[i].0
    ensures MemberOf(body, body[i].0) == Some(body[i].1)
  {
    if i > 0 { Found(body[1..], i - 1); }
  }

  /** Members are in ascending order of name. */
  lemma NamesAscend(p: Payload)
    ensures |CanonicalBody(p)| == 9
    ensures forall i | 0 <= i < 8 :: Precedes(CanonicalBody(p)[i].0, CanonicalBody(p)[i + 1].0)
  {
    hide Precedes;
    FirstDifference("event_id", "event_type", 6);
    FirstDifference("event_type", "existing_rows", 1);
    FirstDifference("existing_rows", "inserted_rows", 0);
    FirstDifference("inserted_rows", "occurred_at", 0);
    FirstDifference("occurred_at", "operation_id", 1);
    FirstDifference("operation_id", "schema_version", 0);
    FirstDifference("schema_version", "status", 1);
    FirstDifference("status", "total_rows", 0);
  }

  lemma NamesDiffer(p: Payload, i: nat, j: nat)
    requires j < i < 9
    ensures CanonicalBody(p)[j].0 != CanonicalBody(p)[i].0
  {
    var a, b := CanonicalBody(p)[j].0, CanonicalBody(p)[i].0;
    assert |a| != |b| || a[0] != b[0];
  }

  /** Which value stands under which name. */
  lemma BodyTells(p: Payload)
    ensures var body := CanonicalBody(p);
            && MemberOf(body, "event_id") == Some(Identifier(p.eventId))
            && MemberOf(body, "event_type") == Some(Text("customer_import.completed"))
            && MemberOf(body, "existing_rows") == Some(Number(p.existingRows))
            && MemberOf(body, "inserted_rows") == Some(Number(p.insertedRows))
            && MemberOf(body, "occurred_at") == Some(Instant(p.occurredAt))
            && MemberOf(body, "operation_id") == Some(Identifier(p.operationId))
            && MemberOf(body, "schema_version") == Some(Text("1.0"))
            && MemberOf(body, "status") == Some(Word(p.importStatus))
            && MemberOf(body, "total_rows") == Some(Number(p.totalRows))
  {
    hide MemberOf;
    var body := CanonicalBody(p);
    forall i: nat | i < 9 ensures MemberOf(body, body[i].0) == Some(body[i].1) {
      forall j | 0 <= j < i ensures body[j].0 != body[i].0 { NamesDiffer(p, i, j); }
      Found(body, i);
    }
    assert body[0].0 == "event_id" && body[1].0 == "event_type" && body[2].0 == "existing_rows";
    assert body[3].0 == "inserted_rows" && body[4].0 == "occurred_at" && body[5].0 == "operation_id";
    assert body[6].0 == "schema_version" && body[7].0 == "status" && body[8].0 == "total_rows";
  }

  // ---- The text of a body ----

  /** How identifiers and instants are written between quotes. */
  datatype Notation = Notation(identifier: nat -> string, instant: Timestamp -> string)
  {
    /** Different values are written differently, and nothing written needs escaping. */
    ghost predicate Legible() {
      && (forall i: nat :: Plain(identifier(i))) && (forall t: Timestamp :: Plain(instant(t)))
      && (forall i: nat, j: nat :: identifier(i) == identifier(j) ==> i == j)
      && (forall t: Timestamp, u: Timestamp :: instant(t) == instant(u) ==> t == u)
    }
  }

  predicate Plain(s: string) { '"' !in s && '\\' !in s }

  predicate IsDigit(c: char) { '0' <= c <= '9' }

  function Digit(d: nat): (c: char)
    requires d < 10
    ensures IsDigit(c)
  {
    '0' + d as char
  }

  function Decimal(n: nat): (s: string)
    ensures s != [] && forall k | 0 <= k < |s| :: IsDigit(s[k])
  {
    if n < 10 then [Digit(n)] else Decimal(n / 10) + [Digit(n % 10)]
  }

  function WordText(w: Outcome): (s: string)
    ensures Plain(s)
  {
    match w
    case Imported => "imported"
    case AlreadyImported => "already_imported"
    case ValidationFailed => "validation_failed"
    case Conflict => "conflict"
    case ConfigurationError => "configuration_error"
    case MigrationRequired => "migration_required"
    case DatabaseError => "database_error"
  }

  /** The text of a value, without the quotes around it if it has any. */
  function BareText(notation: Notation, v: Json): string {
    match v
    case Number(n) => Decimal(n)
    case Text(s) => s
    case Identifier(id) => notation.identifier(id)
    case Instant(t) => notation.instant(t)
    case Word(w) => WordText(w)
  }

  function ValueText(notation: Notation, v: Json): string {
    if v.Number? then BareText(notation, v) else ['"'] + (BareText(notation, v) + ['"'])
  }

  function NameText(name: string): string { ['"'] + name + "\":" }

  /** What follows a member: the others, each after a comma, and the closing brace. */
  function Tail(notation: Notation, body: Body): (s: string)
    ensures s != [] && s[0] in ",}"
  {
    if body == [] then "}"
    else [','] + (NameText(body[0].0) + (ValueText(notation, body[0].1) + Tail(notation, body[1..])))
  }

  /** `json.dumps(payload, separators=(",", ":"))`. */
  function Rendered(notation: Notation, body: Body): string {
    ['{'] + if body == [] then "}" else Tail(notation, body)[1..]
  }

  /** What comes before the first stop can be read off. */
  lemma CutAtStop(a: string, x: string, b: string, y: string, stop: char -> bool)
    requires a + x == b + y
    requires (forall k | 0 <= k < |a| :: !stop(a[k])) && (forall k | 0 <= k < |b| :: !stop(b[k]))
    requires x != [] && y != [] && stop(x[0]) && stop(y[0])
    ensures a == b && x == y
  {
    assert (a + x)[|a|] == x[0] && (b + y)[|b|] == y[0];
    assert |a| == |b|;
    assert a == (a + x)[..|a|] && b == (b + y)[..|b|];
    assert x == (a + x)[|a|..] && y == (b + y)[|b|..];
  }

  lemma {:induction false} DecimalFaithful(m: nat, n: nat)
    requires Decimal(m) == Decimal(n)
    ensures m == n
  {
    var s := Decimal(m);
    assert s[|s| - 1] == Digit(m % 10) == Digit(n % 10);
    if m >= 10 && n >= 10 {
      assert Decimal(m / 10) == s[..|s| - 1] == Decimal(n / 10);
      DecimalFaithful(m / 10, n / 10);
    }
  }

  /** Two values of one kind; texts carry no quotes of their own. */
  predicate Alike(v: Json, w: Json) {
    match v
    case Number(_) => w.Number?
    case Text(s) => w == v && Plain(s)
    case Identifier(_) => w.Identifier?
    case Instant(_) => w.Instant?
    case Word(_) => w.Word?
  }

  lemma BareTextFaithful(notation: Notation, v: Json, w: Json)
    requires notation.Legible() && Alike(v, w) && BareText(notation, v) == BareText(notation, w)
    ensures v == w
  {
    if v.Number? { DecimalFaithful(v.n, w.n); }
  }

  lemma SamePrefix(head: string, x: string, y: string)
    requires head + x == head + y
    ensures x == y
  {
    assert x == (head + x)[|head|..] && y == (head + y)[|head|..];
  }

  lemma ValueFaithful(notation: Notation, v: Json, x: string, w: Json, y: string)
    requires notation.Legible() && Alike(v, w) && x != [] && y != [] && x[0] in ",}" && y[0] in ",}"
    requires ValueText(notation, v) + x == ValueText(notation, w) + y
    ensures v == w && x == y
  {
    var a, b := BareText(notation, v), BareText(notation, w);
    if v.Number? {
      CutAtStop(a, x, b, y, c => !IsDigit(c));
    } else {
      assert ValueText(notation, v) + x == ['"'] + (a + (['"'] + x));
      assert ValueText(notation, w) + y == ['"'] + (b + (['"'] + y));
      SamePrefix(['"'], a + (['"'] + x), b + (['"'] + y));
      PlainTexts(notation, v);
      PlainTexts(notation, w);
      CutAtStop(a, ['"'] + x, b, ['"'] + y, c => c == '"');
      SamePrefix(['"'], x, y);
    }
    BareTextFaithful(notation, v, w);
  }

  lemma PlainTexts(notation: Notation, v: Json)
    requires notation.Legible() && Alike(v, v) && !v.Number?
    ensures Plain(BareText(notation, v))
  {}

  /** Two documents with the same names and kinds of values. */
  predicate SameShape(a: Body, b: Body) {
    |a| == |b| && forall i | 0 <= i < |a| :: a[i].0 == b[i].0 && Alike(a[i].1, b[i].1)
  }

  lemma {:induction false} TailFaithful(notation: Notation, a: Body, b: Body)
    requires notation.Legible() && SameShape(a, b) && Tail(notation, a) == Tail(notation, b)
    ensures a == b
    decreases |a|
  {
    hide Alike, ValueText, NameText, Notation.Legible;
    if a != [] {
      var x, y := Tail(notation, a[1..]), Tail(notation, b[1..]);
      var v, w := ValueText(notation, a[0].1), ValueText(notation, b[0].1);
      SamePrefix([','], NameText(a[0].0) + (v + x), NameText(b[0].0) + (w + y));
      SamePrefix(NameText(a[0].0), v + x, w + y);
      ValueFaithful(notation, a[0].1, x, b[0].1, y);
      TailFaithful(notation, a[1..], b[1..]);
      assert a == [a[0]] + a[1..] && b == [b[0]] + b[1..];
    }
  }

  /** The text that is sent and hashed says everything: equal texts come from equal payloads. */
  lemma CanonicalTextFaithful(notation: Notation, p: Payload, q: Payload)
    requires notation.Legible()
    ensures Rendered(notation, CanonicalBody(p)) == Rendered(notation, CanonicalBody(q)) <==> p == q
  {
    hide CanonicalBody, Tail, Notation.Legible;
    var a, b := CanonicalBody(p), CanonicalBody(q);
    if Rendered(notation, a) == Rendered(notation, b) {
      PayloadsAlike(p, q);
      var x, y := Tail(notation, a), Tail(notation, b);
      SamePrefix(['{'], x[1..], y[1..]);
      assert x[0] == ',' == y[0] by { StartsWithComma(notation, a); StartsWithComma(notation, b); }
      assert x == [x[0]] + x[1..] && y == [y[0]] + y[1..];
      TailFaithful(notation, a, b);
      CanonicalBodyFaithful(p, q);
    }
  }

  lemma StartsWithComma(notation: Notation, body: Body)
    requires body != []
    ensures Tail(notation, body)[0] == ','
  {}

  lemma PayloadsAlike(p: Payload, q: Payload)
    ensures SameShape(CanonicalBody(p), CanonicalBody(q)) && CanonicalBody(p) != []
  {
    assert Plain("customer_import.completed") && Plain("1.0");
  }

  type BodyDigest = Sha256<Body>

  datatype PartnerTables = PartnerTables(attempts: map<EventId, nat>, receipts: map<EventId, BodyDigest>)

  datatype Reply = Accepted(duplicate: bool) | TransientFailure | BodyConflict

  function Attempts(t: PartnerTables, e: EventId): nat { if e in t.attempts then t.attempts[e] else 0 }

  /** `record_partner_delivery`. */
  function Record(t: PartnerTables, e: EventId, body: BodyDigest, simulatedFailures: nat): (PartnerTables, Reply) {
    if e in t.receipts then
      (t, if t.receipts[e] == body then Accepted(true) else BodyConflict)
    else
      var counted := t.(attempts := t.attempts[e := Attempts(t, e) + 1]);
      if counted.attempts[e] <= simulatedFailures then (counted, TransientFailure)
      else (counted.(receipts := counted.receipts[e := body]), Accepted(false))
  }

  class PartnerStore {
    var attempts: map<EventId, nat>
    var receipts: map<EventId, BodyDigest>

    function Contents(): PartnerTables reads this { PartnerTables(attempts, receipts) }

    method RecordPartnerDelivery(e: EventId, body: BodyDigest, simulatedFailures: nat) returns (reply: Reply)
      modifies this
      ensures (Contents(), reply) == Record(old(Contents()), e, body, simulatedFailures)
    {
      if e in receipts {
        if receipts[e] != body { return BodyConflict; }
        return Accepted(true);
      }
      if e in attempts {
        attempts := attempts[e := attempts[e] + 1];
      } else {
        attempts := attempts[e := 1];
      }
      if attempts[e] <= simulatedFailures { return TransientFailure; }
      receipts := receipts[e := body];
      return Accepted(false);
    }
  }

  /** The partner's tables after delivering one body `n` times. */
  function Delivered(t: PartnerTables, e: EventId, body: BodyDigest, simulatedFailures: nat, n: nat): PartnerTables {
    if n == 0 then t
    else Record(Delivered(t, e, body, simulatedFailures, n - 1), e, body, simulatedFailures).0
  }

  /**
   * Delivering to an empty partner fails exactly the simulated number of times; the next delivery
   * writes the one receipt, and all later ones are recognised and change nothing.
   */
  lemma {:induction false} OneReceiptHoweverOften(e: EventId, body: BodyDigest, simulatedFailures: nat, n: nat)
    ensures var t := Delivered(PartnerTables(map[], map[]), e, body, simulatedFailures, n);
            var reply := Record(t, e, body, simulatedFailures).1;
            && t.receipts == (if n <= simulatedFailures then map[] else map[e := body])
            && Attempts(t, e) == (if n <= simulatedFailures then n else simulatedFailures + 1)
            && reply == (if n < simulatedFailures then TransientFailure
                         else if n == simulatedFailures then Accepted(false) else Accepted(true))
  {
    if n > 0 { OneReceiptHoweverOften(e, body, simulatedFailures, n - 1); }
  }
}
