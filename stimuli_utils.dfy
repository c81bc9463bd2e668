/** The stimulus-pool helpers of `generic/stimuli_utils.py`: filters over a
    pool of CSV rows, and the header and row validation of `load_csv`.
    Opening and decoding the file is left out: the reader's header and rows
    are parameters. */
module StimuliUtils {
  import opened Wrappers
  import Records

  /** A row of `csv.DictReader`: header field to cell, `None` for a cell
      the row is short of. */
  type Row = map<string, Option<string>>

  // ---- filtering -----------------------------------------------------------

  /** `list(filter(filt, pool))` for a test that may raise: the rows the
      test accepts, in order, or the first exception. */
  function Select(pool: seq<Row>, test: Row -> Result<bool>): Result<seq<Row>> {
    if pool == [] then Ok([])
    else
      var n := |pool| - 1;
      match Select(pool[..n], test)
      case Err(e) => Err(e)
      case Ok(kept) =>
        match test(pool[n])
        case Err(e) => Err(e)
        case Ok(b) => Ok(kept + if b then [pool[n]] else [])
  }

  /** The rows a test accepts, as a predicate. */
  function Accepted(test: Row -> Result<bool>): Row -> bool {
    (row: Row) => test(row) == Ok(true)
  }

  /** Filtering fails exactly when the test raises on some row; otherwise
      it keeps, in their original order, exactly the rows the test
      accepts. */
  lemma {:induction false} SelectIsWhere(pool: seq<Row>, test: Row -> Result<bool>)
    ensures Select(pool, test).Ok? <==> forall i :: 0 <= i < |pool| ==> test(pool[i]).Ok?
    ensures Select(pool, test).Ok? ==>
      Select(pool, test).value == Records.Pick(pool, Records.Where(pool, Accepted(test)))
  {
    if pool != [] {
      var n := |pool| - 1;
      var front := pool[..n];
      var p := Accepted(test);
      SelectIsWhere(front, test);
      assert forall i :: 0 <= i < n ==> front[i] == pool[i];
      var idx := Records.Where(front, p);
      assert Records.Where(pool, p) == idx + if p(pool[n]) then [n] else [];
      if Select(pool, test).Ok? {
        Records.PickPrefix(pool, n, idx);
        if p(pool[n]) {
          Records.PickAppend(pool, idx, n);
        } else {
          assert idx + [] == idx;
        }
      }
    }
  }

  /** `row['category'] in categories`; a row without the column raises. */
  function InCategories(categories: seq<string>): Row -> Result<bool> {
    (row: Row) => if "category" !in row then Err(KeyError) else Ok(row["category"].Some? && row["category"].value in categories)
  }

  /** `filter_by_category(pool, categories)`. */
  function FilterByCategory(pool: seq<Row>, categories: seq<string>): Result<seq<Row>> {
    Select(pool, InCategories(categories))
  }

  /** The rows kept are those whose category is one of `categories`, in
      the pool's order; only a row without a category column raises. */
  lemma FilterByCategoryKeeps(pool: seq<Row>, categories: seq<string>)
    ensures var r := FilterByCategory(pool, categories);
      (r.Ok? <==> forall i :: 0 <= i < |pool| ==> "category" in pool[i]) &&
      (r.Err? ==> r.error == KeyError) &&
      (r.Ok? ==> r.value == Records.Pick(pool, Records.Where(pool, Accepted(InCategories(categories))))) &&
      (r.Ok? ==> forall k :: 0 <= k < |r.value| ==> r.value[k] in pool && r.value[k]["category"].Some? && r.value[k]["category"].value in categories) &&
      (r.Ok? ==> forall i :: 0 <= i < |pool| && pool[i]["category"].Some? && pool[i]["category"].value in categories ==> pool[i] in r.value)
  {
    var test := InCategories(categories);
    SelectIsWhere(pool, test);
    if Select(pool, test).Ok? {
      var idx := Records.Where(pool, Accepted(test));
      forall i | 0 <= i < |pool| && pool[i]["category"].Some? && pool[i]["category"].value in categories
        ensures pool[i] in Select(pool, test).value
      {
        assert Accepted(test)(pool[i]);
        var k :| 0 <= k < |idx| && idx[k] == i;
        assert Select(pool, test).value[k] == pool[i];
      }
    } else {
      SelectErrors(pool, test);
    }
  }

  /** A failed filter fails with an error the test raised. */
  lemma {:induction false} SelectErrors(pool: seq<Row>, test: Row -> Result<bool>)
    ensures Select(pool, test).Err? ==> exists i :: 0 <= i < |pool| && test(pool[i]) == Err(Select(pool, test).error)
  {
    if pool != [] {
      var n := |pool| - 1;
      SelectErrors(pool[..n], test);
      if Select(pool[..n], test).Err? {
        var i :| 0 <= i < n && test(pool[..n][i]) == Err(Select(pool[..n], test).error);
        assert pool[..n][i] == pool[i];
      }
    }
  }

  /** `all([row[k] == v for k, v in fields.items()])`: every key is looked
      up before the conjunction is taken, so a missing one raises even
      after a mismatch. */
  function FieldsMatch(row: Row, fields: seq<(string, string)>): (r: Result<bool>)
    ensures r.Err? <==> exists j :: 0 <= j < |fields| && fields[j].0 !in row
    ensures r.Err? ==> r.error == KeyError
    ensures r.Ok? ==> (r.value <==> forall j :: 0 <= j < |fields| ==> row[fields[j].0] == Some(fields[j].1))
  {
    if fields == [] then Ok(true)
    else if fields[0].0 !in row then Err(KeyError)
    else
      match FieldsMatch(row, fields[1..])
      case Err(e) => Err(e)
      case Ok(b) => Ok(row[fields[0].0] == Some(fields[0].1) && b)
  }

  function HasFields(fields: seq<(string, string)>): Row -> Result<bool> {
    (row: Row) => FieldsMatch(row, fields)
  }

  /** `filter_by_fields(pool, **fields)`, the keyword arguments in order. */
  function FilterByFields(pool: seq<Row>, fields: seq<(string, string)>): Result<seq<Row>> {
    Select(pool, HasFields(fields))
  }

  /** Without fields the whole pool is kept; otherwise the rows kept are
      those with every field equal to its value, in the pool's order. */
  lemma FilterByFieldsKeeps(pool: seq<Row>, fields: seq<(string, string)>)
    ensures fields == [] ==> FilterByFields(pool, fields) == Ok(pool)
    ensures var r := FilterByFields(pool, fields);
      (r.Ok? <==> forall i, j :: 0 <= i < |pool| && 0 <= j < |fields| ==> fields[j].0 in pool[i]) &&
      (r.Ok? ==> forall k :: 0 <= k < |r.value| ==>
         (r.value[k] in pool && forall j :: 0 <= j < |fields| ==> r.value[k][fields[j].0] == Some(fields[j].1)))
  {
    var test := HasFields(fields);
    SelectIsWhere(pool, test);
    if fields == [] {
      SelectAll(pool, test);
    }
  }

  /** A test that accepts every row keeps the pool. */
  lemma {:induction false} SelectAll(pool: seq<Row>, test: Row -> Result<bool>)
    requires forall i :: 0 <= i < |pool| ==> test(pool[i]) == Ok(true)
    ensures Select(pool, test) == Ok(pool)
  {
    if pool != [] {
      var n := |pool| - 1;
      SelectAll(pool[..n], test);
      assert pool[..n] + [pool[n]] == pool;
    }
  }

  // ---- load_csv ------------------------------------------------------------

  /** `row[fld] == "" or row[fld] is None` raising, for each field in turn. */
  function RowCheck(row: Row, fields: seq<string>): Outcome {
    if fields == [] then Pass
    else if fields[0] !in row then Fail(KeyError)
    else if row[fields[0]] == None || row[fields[0]] == Some("") then Fail(RuntimeError)
    else RowCheck(row, fields[1..])
  }

  /** A row passes exactly when every field is present and non-empty. */
  lemma {:induction false} RowCheckPasses(row: Row, fields: seq<string>)
    ensures RowCheck(row, fields) == Pass <==>
      forall j :: 0 <= j < |fields| ==> fields[j] in row && row[fields[j]] != None && row[fields[j]] != Some("")
    ensures RowCheck(row, fields) != Pass ==> RowCheck(row, fields) == Fail(KeyError) || RowCheck(row, fields) == Fail(RuntimeError)
  {
    if fields != [] {
      RowCheckPasses(row, fields[1..]);
      assert forall j :: 1 <= j < |fields| ==> fields[j] == fields[1..][j - 1];
    }
  }

  /** `fld not in headers` raising for each requested field; an empty file
      has no header and the membership test is a TypeError. */
  function HeaderCheck(header: Option<seq<string>>, fields: seq<string>): Outcome {
    if fields == [] then Pass
    else if header.None? then Fail(TypeError)
    else if fields[0] !in header.value then Fail(RuntimeError)
    else HeaderCheck(header, fields[1..])
  }

  /** The rows of `load_csv(filepath, fields)`. */
  function LoadSpec(header: Option<seq<string>>, rows: seq<Row>, fields: Option<seq<string>>): Result<seq<Row>> {
    var checked := if fields.Some? then HeaderCheck(header, fields.value) else Pass;
    var required := if fields.Some? then fields.value else if header.Some? then header.value else [];
    if checked.Fail? then Err(checked.error)
    else if rows != [] && fields.None? && header.None? then Err(TypeError)
    else RowsCheck(rows, required)
  }

  /** The row loop: all rows, or the first row's failure. */
  function RowsCheck(rows: seq<Row>, required: seq<string>): Result<seq<Row>> {
    if rows == [] then Ok([])
    else match RowCheck(rows[0], required)
      case Fail(e) => Err(e)
      case Pass =>
        match RowsCheck(rows[1..], required)
        case Err(e) => Err(e)
        case Ok(rest) => Ok([rows[0]] + rest)
  }

  /** `data` followed by the rest of the loop's rows, or the loop's error. */
  function After(data: seq<Row>, rest: Result<seq<Row>>): (r: Result<seq<Row>>)
    ensures data == [] ==> r == rest
  {
    assert rest.Ok? ==> [] + rest.value == rest.value;
    match rest
    case Err(e) => Err(e)
    case Ok(more) => Ok(data + more)
  }

  /** The rows are kept in order exactly when each has every required field
      non-empty. */
  lemma {:induction false} RowsCheckKeeps(rows: seq<Row>, required: seq<string>)
    ensures RowsCheck(rows, required).Ok? <==> forall i :: 0 <= i < |rows| ==> RowCheck(rows[i], required) == Pass
    ensures RowsCheck(rows, required).Ok? ==> RowsCheck(rows, required).value == rows
  {
    if rows != [] {
      RowsCheckKeeps(rows[1..], required);
      assert forall i :: 1 <= i < |rows| ==> rows[i] == rows[1..][i - 1];
      assert [rows[0]] + rows[1..] == rows;
    }
  }

  /** `load_csv` succeeds exactly when every requested field is in the
      header and every row has every required field (all header fields
      when none are requested) non-empty, and then returns every row. */
  lemma LoadKeepsRows(header: seq<string>, rows: seq<Row>, fields: Option<seq<string>>)
    ensures var r := LoadSpec(Some(header), rows, fields);
      var required := if fields.Some? then fields.value else header;
      (r.Ok? <==> (fields.Some? ==> forall j :: 0 <= j < |fields.value| ==> fields.value[j] in header) &&
                  forall i, j :: 0 <= i < |rows| && 0 <= j < |required| ==>
                    required[j] in rows[i] && rows[i][required[j]] != None && rows[i][required[j]] != Some("")) &&
      (r.Ok? ==> r.value == rows)
  {
    var required := if fields.Some? then fields.value else header;
    if fields.Some? {
      HeaderCheckPasses(header, fields.value);
    }
    RowsCheckKeeps(rows, required);
    forall i | 0 <= i < |rows| {
      RowCheckPasses(rows[i], required);
    }
  }

  /** The header check passes exactly when every field is in the header. */
  lemma {:induction false} HeaderCheckPasses(header: seq<string>, fields: seq<string>)
    ensures HeaderCheck(Some(header), fields) == Pass <==> forall j :: 0 <= j < |fields| ==> fields[j] in header
  {
    if fields != [] {
      HeaderCheckPasses(header, fields[1..]);
      assert forall j :: 1 <= j < |fields| ==> fields[j] == fields[1..][j - 1];
    }
  }

  /** `load_csv` as written: the header check, then the row loop. */
  method LoadCsv(header: Option<seq<string>>, rows: seq<Row>, fields: Option<seq<string>>) returns (r: Result<seq<Row>>)
    ensures r == LoadSpec(header, rows, fields)
  {
    var required: seq<string> := [];
    if fields.Some? {
      var o := CheckHeader(header, fields.value);
      if o.Fail? {
        return Err(o.error);
      }
      required := fields.value;
    } else if header.Some? {
      required := header.value;
    } else if rows != [] {
      return Err(TypeError);
    }
    r := KeepRows(rows, required);
  }

  /** The loop over the requested fields. */
  method CheckHeader(header: Option<seq<string>>, fields: seq<string>) returns (o: Outcome)
    ensures o == HeaderCheck(header, fields)
  {
    var j := 0;
    while j < |fields|
      invariant 0 <= j <= |fields|
      invariant HeaderCheck(header, fields) == HeaderCheck(header, fields[j..])
    {
      assert fields[j..][1..] == fields[j + 1..];
      if header.None? {
        return Fail(TypeError);
      }
      if fields[j] !in header.value {
        return Fail(RuntimeError);
      }
      j := j + 1;
    }
    return Pass;
  }

  /** The loop over the rows, appending each validated row to `data`. */
  method KeepRows(rows: seq<Row>, required: seq<string>) returns (r: Result<seq<Row>>)
    ensures r == RowsCheck(rows, required)
  {
    var data: seq<Row> := [];
    var i := 0;
    assert rows[0..] == rows;
    while i < |rows|
      invariant 0 <= i <= |rows|
      invariant RowsCheck(rows, required) == After(data, RowsCheck(rows[i..], required))
    {
      assert rows[i..][0] == rows[i] && rows[i..][1..] == rows[i + 1..];
      var o := CheckRow(rows[i], required);
      if o.Fail? {
        return Err(o.error);
      }
      match RowsCheck(rows[i + 1..], required) {
        case Err(_) =>
        case Ok(rest) => assert data + ([rows[i]] + rest) == (data + [rows[i]]) + rest;
      }
      data := data + [rows[i]];
      i := i + 1;
    }
    assert rows[i..] == [] && data + [] == data;
    return Ok(data);
  }

  /** The inner loop over the required fields of one row. */
  method CheckRow(row: Row, fields: seq<string>) returns (o: Outcome)
    ensures o == RowCheck(row, fields)
  {
    var j := 0;
    while j < |fields|
      invariant 0 <= j <= |fields|
      invariant RowCheck(row, fields) == RowCheck(row, fields[j..])
    {
      assert fields[j..][1..] == fields[j + 1..];
      if fields[j] !in row {
        return Fail(KeyError);
      }
      if row[fields[j]] == None || row[fields[j]] == Some("") {
        return Fail(RuntimeError);
      }
      j := j + 1;
    }
    return Pass;
  }
}
