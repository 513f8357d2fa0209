/**
 * The employee step of onboarding: the manual rows, the CSV import
 * (non-blank lines, an optional header, positional comma-separated fields)
 * and what Continue passes on.
 */
module EmployeeInfo {
  import opened Seqs
  import opened Text
  import opened Entities
  import opened Steps

  // ------------------------------------------------------------ manual rows

  /** `createEmptyEmployee`, with the random id as a parameter. */
  function EmptyEmployee(id: string): Employee
  {
    Employee(id, "", "", "", "")
  }

  /** The form opens with four blank rows. */
  function InitialRows(id1: string, id2: string, id3: string, id4: string): (r: seq<Employee>)
    ensures |r| == 4
    ensures forall i :: 0 <= i < 4 ==> r[i].name == "" && r[i].title == "" && r[i].phoneNumber == "" && r[i].email == ""
  {
    [EmptyEmployee(id1), EmptyEmployee(id2), EmptyEmployee(id3), EmptyEmployee(id4)]
  }

  /** `addEmployee`: one blank row at the end. */
  function AddEmployee(rows: seq<Employee>, newId: string): (r: seq<Employee>)
    ensures |r| == |rows| + 1 && r[..|rows|] == rows && r[|rows|] == EmptyEmployee(newId)
  {
    rows + [EmptyEmployee(newId)]
  }

  /** The editable fields of a row. */
  datatype EmployeeField = Name | Title | PhoneNumber | Email

  function SetField(e: Employee, field: EmployeeField, value: string): Employee
  {
    match field
    case Name => e.(name := value)
    case Title => e.(title := value)
    case PhoneNumber => e.(phoneNumber := value)
    case Email => e.(email := value)
  }

  /** `handleEmployeeChange`: that field of the rows with that id, and nothing else. */
  function ChangeEmployee(rows: seq<Employee>, id: string, field: EmployeeField, value: string): (r: seq<Employee>)
    ensures |r| == |rows|
    ensures forall i :: 0 <= i < |rows| ==>
      if rows[i].id == id then r[i] == SetField(rows[i], field, value) else r[i] == rows[i]
  {
    seq(|rows|, i requires 0 <= i < |rows| => if rows[i].id == id then SetField(rows[i], field, value) else rows[i])
  }

  /**
   * An edit changes only the named field of its row, an id no row has changes
   * nothing, and typing the previous value back restores the rows.
   */
  lemma ChangeEmployeeLaws(rows: seq<Employee>, id: string, field: EmployeeField, value: string, i: nat)
    requires i < |rows| && rows[i].id == id
    ensures var e, e' := rows[i], ChangeEmployee(rows, id, field, value)[i];
      && e'.id == e.id
      && (field != Name ==> e'.name == e.name) && (field != Title ==> e'.title == e.title)
      && (field != PhoneNumber ==> e'.phoneNumber == e.phoneNumber) && (field != Email ==> e'.email == e.email)
    ensures (forall j :: 0 <= j < |rows| && rows[j].id == id ==> rows[j] == rows[i]) ==>
      ChangeEmployee(ChangeEmployee(rows, id, field, value), id, field, FieldValue(rows[i], field)) == rows
  {
    var once := ChangeEmployee(rows, id, field, value);
    var back := ChangeEmployee(once, id, field, FieldValue(rows[i], field));
    if forall j :: 0 <= j < |rows| && rows[j].id == id ==> rows[j] == rows[i] {
      forall j | 0 <= j < |rows| ensures back[j] == rows[j] {
        if rows[j].id == id {
          assert rows[j] == rows[i];
        }
      }
    }
  }

  function FieldValue(e: Employee, field: EmployeeField): string
  {
    match field
    case Name => e.name
    case Title => e.title
    case PhoneNumber => e.phoneNumber
    case Email => e.email
  }

  /** A manual row worth keeping: a name, a title or an email that is not blank (a phone number alone is not enough). */
  predicate HasDetails(e: Employee)
  {
    !IsBlank(e.name) || !IsBlank(e.title) || !IsBlank(e.email)
  }

  /**
   * `handleContinue`: the imported employees when a file is loaded and gave at
   * least one row, otherwise the manual rows with details, in order.
   */
  function Continue(csvLoaded: bool, csvEmployees: seq<Employee>, rows: seq<Employee>): (r: seq<Employee>)
    ensures csvLoaded && csvEmployees != [] ==> r == csvEmployees
    ensures !(csvLoaded && csvEmployees != []) ==>
      && (forall i :: 0 <= i < |r| ==> r[i] in rows && HasDetails(r[i]))
      && (forall i :: 0 <= i < |rows| && HasDetails(rows[i]) ==> rows[i] in r)
  {
    if csvLoaded && csvEmployees != [] then csvEmployees
    else
      FilterMembers(rows, HasDetails);
      Filter(rows, HasDetails)
  }

  /** The manual rows keep their order: the rows of a concatenation are those of its parts in turn. */
  lemma ContinueConcat(a: seq<Employee>, b: seq<Employee>)
    ensures Continue(false, [], a + b) == Continue(false, [], a) + Continue(false, [], b)
  {
    FilterConcat(a, b, HasDetails);
  }

  /** One manual row is passed on exactly when it has details. */
  lemma ContinueSingle(e: Employee)
    ensures Continue(false, [], [e]) == if HasDetails(e) then [e] else []
  {
    assert [e][1..] == [];
  }

  /** Continuing from the untouched form passes on no employees. */
  lemma ContinueUntouched(id1: string, id2: string, id3: string, id4: string)
    ensures Continue(false, [], InitialRows(id1, id2, id3, id4)) == []
  {
    var rows := InitialRows(id1, id2, id3, id4);
    assert IsBlank("");
    FilterNone(rows, HasDetails);
  }

  // ------------------------------------------------------------ CSV import

  /** The first line is taken for a header when, lower-cased, it contains "name". */
  predicate HasHeader(lines: seq<string>)
  {
    |lines| > 0 && Contains(ToLowerAscii(lines[0]), "name")
  }

  /** How many lines the header takes: one or none. */
  function HeaderLength(lines: seq<string>): (n: nat)
    ensures n <= |lines|
    ensures n == 1 <==> HasHeader(lines)
  {
    if HasHeader(lines) then 1 else 0
  }

  /** The lines that become employees: the non-blank lines, less the header. */
  function CsvRows(text: string): (r: seq<string>)
    ensures var lines := ParseSteps(text);
      && (HasHeader(lines) ==> r == lines[1..])
      && (!HasHeader(lines) ==> r == lines)
    ensures |r| == |ParseSteps(text)| - HeaderLength(ParseSteps(text))
  {
    var lines := ParseSteps(text);
    lines[HeaderLength(lines)..]
  }

  /** `values[k] || ''`: a missing column reads as empty. */
  function Column(values: seq<string>, k: nat): string
  {
    if k < |values| then values[k] else ""
  }

  /** The employee of one line: the trimmed comma-separated columns 0 to 3; extra columns are ignored. */
  function RowEmployee(line: string, id: string): Employee
  {
    var values := TrimAll(Split(line, ','));
    Employee(id, Column(values, 0), Column(values, 1), Column(values, 2), Column(values, 3))
  }

  /** What a read field is like: trimmed, with no comma in it. */
  predicate ReadField(f: string)
  {
    IsTrimmed(f) && ',' !in f
  }

  lemma ColumnClean(values: seq<string>, k: nat)
    requires forall i :: 0 <= i < |values| ==> ReadField(values[i])
    ensures ReadField(Column(values, k))
  {
    assert IsTrimmed("");
  }

  /** The fields of an imported employee are trimmed and hold no comma. */
  lemma RowFieldsClean(line: string, id: string)
    ensures var e := RowEmployee(line, id);
      ReadField(e.name) && ReadField(e.title) && ReadField(e.phoneNumber) && ReadField(e.email)
  {
    var values := TrimAll(Split(line, ','));
    TrimmedPiecesClean(line, ',');
    ColumnClean(values, 0);
    ColumnClean(values, 1);
    ColumnClean(values, 2);
    ColumnClean(values, 3);
  }

  /** The employees of the rows, one per row and in order, under the ids drawn for them. */
  function RowEmployees(rows: seq<string>, ids: seq<string>): (r: seq<Employee>)
    requires |ids| == |rows|
    ensures |r| == |rows|
  {
    if rows == [] then [] else RowEmployees(rows[..|rows| - 1], ids[..|rows| - 1]) + [RowEmployee(rows[|rows| - 1], ids[|rows| - 1])]
  }

  /** Employee `i` comes from row `i`. */
  lemma {:induction false} RowEmployeesAt(rows: seq<string>, ids: seq<string>, i: nat)
    requires |ids| == |rows| && i < |rows|
    ensures RowEmployees(rows, ids)[i] == RowEmployee(rows[i], ids[i])
  {
    if i < |rows| - 1 {
      RowEmployeesAt(rows[..|rows| - 1], ids[..|rows| - 1], i);
    }
  }

  /** Extending the rows by one extends their employees by that row's. */
  lemma RowEmployeesSnoc(rows: seq<string>, ids: seq<string>, n: nat)
    requires |ids| == |rows| && n < |rows|
    ensures RowEmployees(rows[..n + 1], ids[..n + 1]) == RowEmployees(rows[..n], ids[..n]) + [RowEmployee(rows[n], ids[n])]
  {
    assert rows[..n + 1][..n] == rows[..n];
    assert ids[..n + 1][..n] == ids[..n];
  }

  /**
   * The `onload` body of `handleCsvUpload`: one employee per row, in order;
   * `ids` holds the random id drawn for each row.
   */
  method ParseCsv(text: string, ids: seq<string>) returns (employees: seq<Employee>)
    requires |ids| == |CsvRows(text)|
    ensures employees == RowEmployees(CsvRows(text), ids)
  {
    employees := EmployeesOf(CsvRows(text), ids);
  }

  /** The loop of the `onload` body. */
  method EmployeesOf(rows: seq<string>, ids: seq<string>) returns (employees: seq<Employee>)
    requires |ids| == |rows|
    ensures employees == RowEmployees(rows, ids)
  {
    employees := [];
    var k := 0;
    while k < |rows|
      invariant k <= |rows|
      invariant employees == RowEmployees(rows[..k], ids[..k])
    {
      // `values.length >= 1` always holds here: a split has at least one piece.
      RowEmployeesSnoc(rows, ids, k);
      employees := employees + [RowEmployee(rows[k], ids[k])];
      k := k + 1;
    }
    assert rows[..k] == rows && ids[..k] == ids;
  }

  // ------------------------------------------------------------ CSV round trip

  /** The column names, in column order. */
  const HeaderFields := ["Name", "Title", "Phone", "Email"]

  const CsvHeader := Join(HeaderFields, ",")

  /** One employee written as a CSV line. */
  function CsvLine(e: Employee): string
  {
    Join(Fields(e), ",")
  }

  /** The four written fields, in column order. */
  function Fields(e: Employee): seq<string>
  {
    [e.name, e.title, e.phoneNumber, e.email]
  }

  /** A field that survives a write and a read: trimmed, with no comma or line break in it. */
  predicate CleanField(f: string)
  {
    IsTrimmed(f) && ',' !in f && '\n' !in f
  }

  predicate CleanEmployee(e: Employee)
  {
    CleanField(e.name) && CleanField(e.title) && CleanField(e.phoneNumber) && CleanField(e.email)
  }

  /** Reading back a written line gives the employee again, under the new id. */
  lemma CsvLineRoundTrip(e: Employee, id: string)
    requires CleanEmployee(e)
    ensures RowEmployee(CsvLine(e), id) == e.(id := id)
  {
    var fields := Fields(e);
    SplitJoin(fields, ',');
    var values := TrimAll(fields);
    assert values[0] == e.name && values[1] == e.title && values[2] == e.phoneNumber && values[3] == e.email;
  }

  /** A written line is never blank and holds no line break. */
  lemma CsvLineIsStep(e: Employee)
    requires CleanEmployee(e)
    ensures CleanStep(CsvLine(e))
  {
    var s := CsvLine(e);
    assert s == e.name + "," + Join(Fields(e)[1..], ",");
    assert s[|e.name|] == ',';
    NotBlankAt(s, |e.name|);
    JoinAvoids(Fields(e), ",", '\n');
  }

  function CsvLines(es: seq<Employee>): (r: seq<string>)
    ensures |r| == |es| && forall i :: 0 <= i < |es| ==> r[i] == CsvLine(es[i])
  {
    seq(|es|, i requires 0 <= i < |es| => CsvLine(es[i]))
  }

  /** The header is recognised as one. */
  lemma HeaderDetected(rest: seq<string>)
    ensures HasHeader([CsvHeader] + rest)
  {
    assert CsvHeader == "Name" + "," + Join(HeaderFields[1..], ",");
    assert ToLowerAscii(CsvHeader)[..4] == "name";
    assert OccursAt(ToLowerAscii(CsvHeader), "name", 0);
  }

  /** The written lines, each a clean step. */
  lemma CsvLinesAreSteps(es: seq<Employee>)
    requires forall i :: 0 <= i < |es| ==> CleanEmployee(es[i])
    ensures forall i :: 0 <= i < |es| ==> CleanStep(CsvLines(es)[i])
  {
    forall i | 0 <= i < |es| ensures CleanStep(CsvLines(es)[i]) {
      CsvLineIsStep(es[i]);
    }
  }

  /** No header field holds a line break. */
  lemma HeaderFieldOneLine(w: string)
    requires w in HeaderFields
    ensures '\n' !in w
  {
  }

  /** The header is a line of its own, and not blank. */
  lemma HeaderIsStep()
    ensures CleanStep(CsvHeader)
  {
    JoinStart(HeaderFields, ",");
    NotBlankAt(CsvHeader, 0);
    forall k | 0 <= k < |HeaderFields| ensures '\n' !in HeaderFields[k] {
      HeaderFieldOneLine(HeaderFields[k]);
    }
    JoinAvoids(HeaderFields, ",", '\n');
  }

  /** The non-blank lines of a written file: the header, then one line per employee. */
  lemma CsvFileSteps(es: seq<Employee>)
    requires forall i :: 0 <= i < |es| ==> CleanEmployee(es[i])
    ensures ParseSteps(CsvHeader + "\n" + Join(CsvLines(es), "\n")) == [CsvHeader] + CsvLines(es)
  {
    CsvLinesAreSteps(es);
    HeaderIsStep();
    StepsRoundTripAfter(CsvHeader, CsvLines(es));
  }

  /** The rows of a written file are the written lines. */
  lemma CsvFileRows(es: seq<Employee>)
    requires forall i :: 0 <= i < |es| ==> CleanEmployee(es[i])
    ensures CsvRows(CsvHeader + "\n" + Join(CsvLines(es), "\n")) == CsvLines(es)
  {
    CsvFileSteps(es);
    HeaderDetected(CsvLines(es));
    assert ([CsvHeader] + CsvLines(es))[1..] == CsvLines(es);
  }

  /**
   * A file of the header followed by one line per employee imports as those
   * employees, in order, each under the id drawn for it.
   */
  lemma CsvFileRoundTrip(es: seq<Employee>, ids: seq<string>)
    requires forall i :: 0 <= i < |es| ==> CleanEmployee(es[i])
    requires |ids| == |es|
    ensures var rows := CsvRows(CsvHeader + "\n" + Join(CsvLines(es), "\n"));
      |rows| == |es| && forall i :: 0 <= i < |es| ==> RowEmployee(rows[i], ids[i]) == es[i].(id := ids[i])
  {
    CsvFileRows(es);
    forall i | 0 <= i < |es| ensures RowEmployee(CsvLine(es[i]), ids[i]) == es[i].(id := ids[i]) {
      CsvLineRoundTrip(es[i], ids[i]);
    }
  }
}
