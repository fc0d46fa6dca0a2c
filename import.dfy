/** The CSV import: file-name check, header check, row-by-row conversion, one commit. */
module Import {
  import opened Models
  import opened Store
  import Upload

  /** The table `read_csv` yields: the header and one field map per data row. */
  datatype Table = Table(columns: seq<string>, rows: seq<Fields>)

  /** `all(col in df.columns for col in required_columns)`. */
  predicate HasRequiredColumns(columns: seq<string>)
  {
    forall c :: c in REQUIRED_COLUMNS ==> c in columns
  }

  /** The header check depends only on which names occur: not on their order, their
      repetitions or extra columns. */
  lemma HeaderCheckOnNames(columns: seq<string>, other: seq<string>)
    requires forall c :: c in REQUIRED_COLUMNS ==> (c in columns <==> c in other)
    ensures HasRequiredColumns(columns) == HasRequiredColumns(other)
  {
  }

  function AsList(o: Option<FoodEntry>): seq<FoodEntry>
  {
    if o.Some? then [o.value] else []
  }

  /** The entries the loop puts in the session: the converted rows, in file order, skipping
      the rows whose conversion fails. */
  function Converted(rows: seq<Fields>, parseDate: string -> Option<Date>, parseNumber: string -> Option<real>)
    : seq<FoodEntry>
  {
    if rows == [] then []
    else Converted(rows[..|rows| - 1], parseDate, parseNumber) + AsList(ToEntry(rows[|rows| - 1], parseDate, parseNumber))
  }

  /** Conversion works row by row: the entries of a concatenation are the concatenation
      of the entries. */
  lemma {:induction false} ConvertedAppend(a: seq<Fields>, b: seq<Fields>,
                                           parseDate: string -> Option<Date>, parseNumber: string -> Option<real>)
    ensures Converted(a + b, parseDate, parseNumber) == Converted(a, parseDate, parseNumber) + Converted(b, parseDate, parseNumber)
  {
    if b == [] {
      assert a + b == a;
    } else {
      var init := b[..|b| - 1];
      assert (a + b)[..|a + b| - 1] == a + init;
      assert (a + b)[|a + b| - 1] == b[|b| - 1];
      ConvertedAppend(a, init, parseDate, parseNumber);
    }
  }

  lemma ConvertedSingle(row: Fields, parseDate: string -> Option<Date>, parseNumber: string -> Option<real>)
    ensures Converted([row], parseDate, parseNumber) == AsList(ToEntry(row, parseDate, parseNumber))
  {
    assert [row][..0] == [];
  }

  /** A row whose conversion fails adds nothing and does not stop the rows after it. */
  lemma FailingRowSkipped(before: seq<Fields>, bad: Fields, after: seq<Fields>,
                          parseDate: string -> Option<Date>, parseNumber: string -> Option<real>)
    requires ToEntry(bad, parseDate, parseNumber).None?
    ensures Converted(before + [bad] + after, parseDate, parseNumber)
         == Converted(before, parseDate, parseNumber) + Converted(after, parseDate, parseNumber)
  {
    ConvertedAppend(before + [bad], after, parseDate, parseNumber);
    ConvertedAppend(before, [bad], parseDate, parseNumber);
    ConvertedSingle(bad, parseDate, parseNumber);
  }

  /** The indices of the rows whose conversion succeeds. */
  function Succeeding(rows: seq<Fields>, parseDate: string -> Option<Date>, parseNumber: string -> Option<real>)
    : set<nat>
  {
    set i: nat | i < |rows| && ToEntry(rows[i], parseDate, parseNumber).Some?
  }

  lemma SucceedingSnoc(rows: seq<Fields>, parseDate: string -> Option<Date>, parseNumber: string -> Option<real>)
    requires rows != []
    ensures
      var n := |rows| - 1;
      var s := Succeeding(rows[..n], parseDate, parseNumber);
      && n !in s
      && Succeeding(rows, parseDate, parseNumber)
         == if ToEntry(rows[n], parseDate, parseNumber).Some? then s + {n} else s
  {
    var n := |rows| - 1;
    assert forall i :: 0 <= i < n ==> rows[i] == rows[..n][i];
  }

  /** One entry per succeeding row: so at most one per row. */
  lemma {:induction false} ConvertedCount(rows: seq<Fields>,
                                          parseDate: string -> Option<Date>, parseNumber: string -> Option<real>)
    ensures |Converted(rows, parseDate, parseNumber)| == |Succeeding(rows, parseDate, parseNumber)| <= |rows|
  {
    if rows == [] {
      assert Succeeding(rows, parseDate, parseNumber) == {};
    } else {
      ConvertedCount(rows[..|rows| - 1], parseDate, parseNumber);
      SucceedingSnoc(rows, parseDate, parseNumber);
    }
  }

  /** Every imported entry is owned by the default user. */
  lemma {:induction false} ConvertedOwner(rows: seq<Fields>,
                                          parseDate: string -> Option<Date>, parseNumber: string -> Option<real>)
    ensures forall e :: e in Converted(rows, parseDate, parseNumber) ==> e.userId == DEFAULT_USER
  {
    if rows != [] {
      ConvertedOwner(rows[..|rows| - 1], parseDate, parseNumber);
    }
  }

  function CsvRow(date: string, name: string, calories: string, protein: string, carbs: string, fat: string)
    : Fields
  {
    map["date" := date, "food_name" := name, "calories" := calories, "protein" := protein,
        "carbs" := carbs, "fat" := fat]
  }

  /** A good row followed by a row with an unparseable date imports exactly the good row. */
  lemma GoodAndBadRow(parseDate: string -> Option<Date>, parseNumber: string -> Option<real>)
    requires parseDate("2024-01-01") == Some(Date(2024, 1, 1)) && parseDate("bad-date") == None
    requires parseNumber("95") == Some(95.0) && parseNumber("0.5") == Some(0.5)
    requires parseNumber("25") == Some(25.0) && parseNumber("0.3") == Some(0.3)
    ensures
      var rows := [CsvRow("2024-01-01", "Apple", "95", "0.5", "25", "0.3"),
                   CsvRow("bad-date", "X", "1", "1", "1", "1")];
      Converted(rows, parseDate, parseNumber)
        == [FoodEntry(Date(2024, 1, 1), "Apple", 95.0, 0.5, 25.0, 0.3, DEFAULT_USER)]
  {
    var good := CsvRow("2024-01-01", "Apple", "95", "0.5", "25", "0.3");
    var bad := CsvRow("bad-date", "X", "1", "1", "1", "1");
    assert HasRequiredFields(good) && HasRequiredFields(bad);
    ConvertedSingle(good, parseDate, parseNumber);
    FailingRowSkipped([good], bad, [], parseDate, parseNumber);
    assert [good] + [bad] + [] == [good, bad];
  }

  /** The loop's outcome: the header check failed, or the counter and the pending entries. */
  datatype RowsResult = SchemaError | Pending(imported: nat, entries: seq<FoodEntry>)

  /** The header check and the loop over the rows, up to (not including) the commit. */
  method ImportRows(table: Table, parseDate: string -> Option<Date>, parseNumber: string -> Option<real>)
    returns (result: RowsResult)
    ensures result.SchemaError? <==> !HasRequiredColumns(table.columns)
    ensures result.Pending? ==>
      && result.entries == Converted(table.rows, parseDate, parseNumber)
      && result.imported == |result.entries|
  {
    if !HasRequiredColumns(table.columns) {
      return SchemaError;
    }
    var imported := 0;
    var pending: seq<FoodEntry> := [];
    var i := 0;
    while i < |table.rows|
      invariant 0 <= i <= |table.rows|
      invariant pending == Converted(table.rows[..i], parseDate, parseNumber)
      invariant imported == |pending|
    {
      var row := table.rows[i];
      assert table.rows[..i + 1][..i] == table.rows[..i];
      var entry := ToEntry(row, parseDate, parseNumber);
      if entry.Some? {
        pending := pending + [entry.value];
        imported := imported + 1;
      }
      i := i + 1;
    }
    assert table.rows[..i] == table.rows;
    result := Pending(imported, pending);
  }

  datatype ImportOutcome =
    | RejectedFileType
    | ReadFailed
    | MissingColumns
    | Imported(count: nat)

  /** The POST of the import route from the saved upload on.  `table` is the result of
      reading the file (None when reading raised). */
  method ImportData(store: EntryStore, filename: string, table: Option<Table>,
                    parseDate: string -> Option<Date>, parseNumber: string -> Option<real>)
    returns (outcome: ImportOutcome)
    requires store.Valid()
    modifies store
    ensures store.Valid()
    ensures outcome.RejectedFileType? <==> !Upload.AllowedFile(filename)
    ensures outcome.ReadFailed? <==> Upload.AllowedFile(filename) && table.None?
    ensures outcome.MissingColumns? <==>
      Upload.AllowedFile(filename) && table.Some? && !HasRequiredColumns(table.value.columns)
    ensures outcome.Imported? ==>
      && table.Some?
      && store.Entries() == old(store.Entries()) + Converted(table.value.rows, parseDate, parseNumber)
      && store.rows[..|old(store.rows)|] == old(store.rows)
      && outcome.count == |Converted(table.value.rows, parseDate, parseNumber)|
    ensures !outcome.Imported? ==> store.rows == old(store.rows) && store.nextId == old(store.nextId)
  {
    if !Upload.AllowedFile(filename) {
      return RejectedFileType;
    }
    if table.None? {
      return ReadFailed;
    }
    var result := ImportRows(table.value, parseDate, parseNumber);
    if result.SchemaError? {
      return MissingColumns;
    }
    store.AddAll(result.entries);
    outcome := Imported(result.imported);
  }
}
