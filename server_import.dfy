/**
 * The row loop of `import_contacts`, the same in both servers
 * (backend/app.py and backend/app_hybrid.py). Each CSV row is imported,
 * skipped with an error message, or skipped silently as a duplicate of a
 * phone number the user already has.
 *
 * The database is abstracted as the set of the user's phone numbers; an
 * INSERT that raises is given as a message per row number.
 */
module ContactImport {
  import opened Wrappers
  import opened Text
  import opened Contacts

  /**
   * A row of `csv.DictReader`: a column the header lacks is absent, a cell
   * missing from a short line is `None`.
   */
  type Row = map<string, Option<string>>

  /** `str(row.get(key, ''))`: absent reads as `''`, `None` as `'None'`. */
  function RawCell(row: Row, key: string): string {
    if key !in row then "" else if row[key].None? then "None" else row[key].value
  }

  /** A cell as the loop reads it: stripped. */
  function Cell(row: Row, key: string): string {
    Strip(RawCell(row, key), IsPySpace)
  }

  /** Decimal digits of a row number, as an f-string prints it. */
  function Decimal(n: nat): (r: string)
    ensures r != [] && AllDigits(r)
    ensures DigitsValue(r) == n
    ensures r[0] == '0' <==> n == 0
    ensures |r| > 1 ==> r[0] != '0'
  {
    if n < 10 then
      var r := [('0' as int + n) as char];
      assert r[..0] == [];
      r
    else
      var high, low := Decimal(n / 10), Decimal(n % 10);
      assert |low| == 1;
      assert (high + low)[..|high + low| - 1] == high;
      high + low
  }

  const MissingFieldsMessage := "Missing required fields"
  const PhoneDigitsMessage := "Phone number must be 10 digits"

  /** `f"Row {i}: {text}"`. */
  function RowMessage(i: nat, text: string): string {
    "Row " + Decimal(i) + ": " + text
  }

  /** Python's `str.isdigit()` on ASCII: non-empty and digits only. */
  predicate IsDigitString(s: string) {
    s != [] && AllDigits(s)
  }

  datatype RowOutcome =
    | Imported(contact: ContactInput)
    | Duplicate
    | Rejected(message: string)

  /** The five stripped cells of a row. */
  function ReadRow(row: Row): ContactInput {
    ContactInput(Cell(row, "first_name"), Cell(row, "last_name"), Cell(row, "phone_number"),
                 Cell(row, "email_address"), Cell(row, "address"))
  }

  /**
   * The checks of one row, in order: a missing name or phone, a phone the
   * user already has, a phone that is not ten digits, then the INSERT.
   */
  function ClassifyRow(c: ContactInput, i: nat, phones: set<string>, fault: Option<string>): (r: RowOutcome)
    ensures r.Imported? <==>
      c.firstName != [] && c.lastName != [] && c.phoneNumber !in phones
      && IsDigitString(c.phoneNumber) && |c.phoneNumber| == 10 && fault.None?
    ensures r.Imported? ==> r.contact == c
    ensures r.Duplicate? <==>
      c.firstName != [] && c.lastName != [] && c.phoneNumber != [] && c.phoneNumber in phones
    ensures r.Rejected? && (c.firstName == [] || c.lastName == [] || c.phoneNumber == []) ==>
      r.message == RowMessage(i, MissingFieldsMessage)
    ensures (c.firstName != [] && c.lastName != [] && c.phoneNumber != [] && c.phoneNumber !in phones
             && !(IsDigitString(c.phoneNumber) && |c.phoneNumber| == 10)) ==>
      r == Rejected(RowMessage(i, PhoneDigitsMessage))
    ensures (c.firstName != [] && c.lastName != [] && c.phoneNumber !in phones
             && IsDigitString(c.phoneNumber) && |c.phoneNumber| == 10 && fault.Some?) ==>
      r == Rejected(RowMessage(i, fault.value))
  {
    if c.firstName == [] || c.lastName == [] || c.phoneNumber == [] then Rejected(RowMessage(i, MissingFieldsMessage))
    else if c.phoneNumber in phones then Duplicate
    else if !IsDigitString(c.phoneNumber) || |c.phoneNumber| != 10 then Rejected(RowMessage(i, PhoneDigitsMessage))
    else if fault.Some? then Rejected(RowMessage(i, fault.value))
    else Imported(c)
  }

  /** The loop's counters and lists after some rows, with the user's phones so far. */
  datatype ImportState = ImportState(
    imported: nat,
    skipped: nat,
    errors: seq<string>,
    added: seq<ContactInput>,
    phones: set<string>)

  /** The effect of one row on the loop state; an imported row's phone joins the user's phones. */
  function Step(st: ImportState, c: ContactInput, i: nat, fault: Option<string>): ImportState {
    match ClassifyRow(c, i, st.phones, fault)
    case Imported(c) => st.(imported := st.imported + 1, added := st.added + [c], phones := st.phones + {c.phoneNumber})
    case Duplicate => st.(skipped := st.skipped + 1)
    case Rejected(m) => st.(skipped := st.skipped + 1, errors := st.errors + [m])
  }

  /** The fault of row number `i`, if its INSERT raises. */
  function FaultOf(faults: map<nat, string>, i: nat): Option<string> {
    if i in faults then Some(faults[i]) else None
  }

  /** The state after the read rows, numbered from 1 as `enumerate(reader, 1)` does. */
  function ImportSpec(records: seq<ContactInput>, existing: set<string>, faults: map<nat, string>): ImportState
    decreases |records|
  {
    if records == [] then ImportState(0, 0, [], [], existing)
    else
      var n := |records|;
      Step(ImportSpec(records[..n - 1], existing, faults), records[n - 1], n, FaultOf(faults, n))
  }

  /** Every row, read. */
  function ReadRows(rows: seq<Row>): (records: seq<ContactInput>)
    ensures |records| == |rows| && forall k :: 0 <= k < |rows| ==> records[k] == ReadRow(rows[k])
  {
    seq(|rows|, k requires 0 <= k < |rows| => ReadRow(rows[k]))
  }

  /** `ImportSpec` of one more row is one more `Step`. */
  lemma SpecStep(records: seq<ContactInput>, existing: set<string>, faults: map<nat, string>, k: nat)
    requires k < |records|
    ensures ImportSpec(records[..k + 1], existing, faults)
      == Step(ImportSpec(records[..k], existing, faults), records[k], k + 1, FaultOf(faults, k + 1))
  {
    assert records[..k + 1][..k] == records[..k];
  }

  /**
   * The import loop: `faults` holds, by row number, the message of an INSERT
   * that raises. Returns the counters, the error list and the contacts added.
   */
  method ImportContacts(rows: seq<Row>, existing: set<string>, faults: map<nat, string>)
    returns (imported: nat, skipped: nat, errors: seq<string>, added: seq<ContactInput>)
    ensures var st := ImportSpec(ReadRows(rows), existing, faults);
      imported == st.imported && skipped == st.skipped && errors == st.errors && added == st.added
  {
    ghost var records := ReadRows(rows);
    imported, skipped, errors, added := 0, 0, [], [];
    var phones := existing;
    for k := 0 to |rows|
      invariant ImportSpec(records[..k], existing, faults) == ImportState(imported, skipped, errors, added, phones)
    {
      var i := k + 1;
      var c := ReadRow(rows[k]);
      var fault := if i in faults then Some(faults[i]) else None;
      SpecStep(records, existing, faults, k);
      imported, skipped, errors, added, phones := ImportRow(c, i, fault, imported, skipped, errors, added, phones);
    }
    assert records[..|rows|] == records;
  }

  /** The loop body for one read row: classify it, then count it and record its error or contact. */
  method ImportRow(c: ContactInput, i: nat, fault: Option<string>,
                   imported: nat, skipped: nat, errors: seq<string>, added: seq<ContactInput>, phones: set<string>)
    returns (imported': nat, skipped': nat, errors': seq<string>, added': seq<ContactInput>, phones': set<string>)
    ensures ImportState(imported', skipped', errors', added', phones')
         == Step(ImportState(imported, skipped, errors, added, phones), c, i, fault)
  {
    imported', skipped', errors', added', phones' := imported, skipped, errors, added, phones;
    match ClassifyRow(c, i, phones, fault) {
      case Imported(contact) =>
        added' := added + [contact];
        phones' := phones + {contact.phoneNumber};
        imported' := imported + 1;
      case Duplicate =>
        skipped' := skipped + 1;
      case Rejected(m) =>
        errors' := errors + [m];
        skipped' := skipped + 1;
    }
  }

  /**
   * Every row is counted once, only skipped rows leave an error, the stored
   * phones are the existing ones plus each added contact's, and every added
   * contact has a fresh ten-digit phone, distinct from the other added ones.
   */
  lemma {:induction false} ImportInvariant(records: seq<ContactInput>, existing: set<string>, faults: map<nat, string>)
    ensures var st := ImportSpec(records, existing, faults);
      st.imported + st.skipped == |records| && |st.errors| <= st.skipped
      && st.imported == |st.added|
      && st.phones == existing + (set c | c in st.added :: c.phoneNumber)
      && (forall k :: 0 <= k < |st.added| ==>
            IsDigitString(st.added[k].phoneNumber) && |st.added[k].phoneNumber| == 10
            && st.added[k].phoneNumber !in existing)
      && (forall j, k :: 0 <= j < k < |st.added| ==> st.added[j].phoneNumber != st.added[k].phoneNumber)
  {
    if records != [] {
      var n := |records|;
      var prev := ImportSpec(records[..n - 1], existing, faults);
      ImportInvariant(records[..n - 1], existing, faults);
      var fault := FaultOf(faults, n);
      var outcome := ClassifyRow(records[n - 1], n, prev.phones, fault);
      var st := ImportSpec(records, existing, faults);
      assert st == Step(prev, records[n - 1], n, fault);
      if outcome.Imported? {
        var c := outcome.contact;
        assert st.added == prev.added + [c];
        assert c.phoneNumber !in prev.phones;
        assert (set x | x in st.added :: x.phoneNumber) == (set x | x in prev.added :: x.phoneNumber) + {c.phoneNumber};
        forall j | 0 <= j < |prev.added|
          ensures st.added[j].phoneNumber != c.phoneNumber
        {
          assert prev.added[j] in prev.added;
        }
      }
    }
  }

  /** A row whose phone the user already has is skipped without an error entry. */
  lemma DuplicateLeavesNoError(st: ImportState, row: Row, i: nat, fault: Option<string>)
    requires var c := ReadRow(row); c.firstName != [] && c.lastName != [] && c.phoneNumber != []
    requires ReadRow(row).phoneNumber in st.phones
    ensures Step(st, ReadRow(row), i, fault) == st.(skipped := st.skipped + 1)
  {
  }
}
