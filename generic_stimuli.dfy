/** The stimulus pool of the `generic` app (`generic/stimuli.py`): the pool
    loaded at import time from `stimuli.csv`, with checks that every
    required column is filled in and that every `image:` cell names an
    existing file, and the category filter over it. */
module GenericStimuli {
  import opened Wrappers
  import StimuliUtils
  import Records
  import Text

  type Row = StimuliUtils.Row

  /** `REQ_FIELDS` */
  const RequiredFields: seq<string> := ["stimulus", "category"]

  /** The prefix that makes a cell an image reference. */
  const ImagePrefix: string := "image:"

  /** `val.startswith("image:")`, and the file name after it. */
  predicate IsImage(val: string) {
    Text.StartsWith(val, ImagePrefix)
  }

  /** The file an image cell names, relative to `static/images`. */
  function ImageFile(val: string): string
    requires IsImage(val)
  {
    val[|ImagePrefix|..]
  }

  /** The loop over every header field of one row: a missing cell (`None`)
      has no `startswith` and raises AttributeError; an image cell whose
      file does not exist raises RuntimeError. */
  function ImageCheck(row: Row, fields: seq<string>, present: string -> bool): Outcome {
    if fields == [] then Pass
    else if fields[0] !in row then Fail(KeyError)
    else if row[fields[0]].None? then Fail(AttributeError)
    else if IsImage(row[fields[0]].value) && !present(ImageFile(row[fields[0]].value)) then Fail(RuntimeError)
    else ImageCheck(row, fields[1..], present)
  }

  /** One row's checks: the required cells, then the image cells over the
      header (`for fld in fields` over a missing header is a TypeError). */
  function RowOutcome(row: Row, header: Option<seq<string>>, required: seq<string>, present: string -> bool): Outcome {
    match StimuliUtils.RowCheck(row, required)
    case Fail(e) => Fail(e)
    case Pass =>
      if header.None? then Fail(TypeError)
      else ImageCheck(row, header.value, present)
  }

  /** The row loop: all rows, or the first failing row's error. */
  function ValidRows(rows: seq<Row>, header: Option<seq<string>>, required: seq<string>, present: string -> bool): Result<seq<Row>> {
    if rows == [] then Ok([])
    else match RowOutcome(rows[0], header, required, present)
      case Fail(e) => Err(e)
      case Pass =>
        match ValidRows(rows[1..], header, required, present)
        case Err(e) => Err(e)
        case Ok(rest) => Ok([rows[0]] + rest)
  }

  /** `required_fields or []` */
  function Required(requiredFields: Option<seq<string>>): seq<string> {
    if requiredFields.Some? then requiredFields.value else []
  }

  /** `load_csv(filename, required_fields)` over the reader's header and
      rows; `present` tells which image files are present. */
  function LoadSpec(header: Option<seq<string>>, rows: seq<Row>, requiredFields: Option<seq<string>>, present: string -> bool): Result<seq<Row>> {
    var required := Required(requiredFields);
    match StimuliUtils.HeaderCheck(header, required)
    case Fail(e) => Err(e)
    case Pass => ValidRows(rows, header, required, present)
  }

  /** `POOL`: empty without a CSV file, otherwise the loaded rows. */
  function Pool(csvExists: bool, header: Option<seq<string>>, rows: seq<Row>, present: string -> bool): (r: Result<seq<Row>>)
    ensures !csvExists ==> r == Ok([])
  {
    if csvExists then LoadSpec(header, rows, Some(RequiredFields), present) else Ok([])
  }

  /** Every one of `fields` is a filled-in cell of the row. */
  predicate Filled(row: Row, fields: seq<string>) {
    forall j :: 0 <= j < |fields| ==> fields[j] in row && row[fields[j]] != None && row[fields[j]] != Some("")
  }

  /** Every one of `fields` is a cell of the row, and an image cell names a
      file that is present. */
  predicate ImagesPresent(row: Row, fields: seq<string>, present: string -> bool) {
    forall j :: 0 <= j < |fields| ==>
      (fields[j] in row && row[fields[j]].Some? &&
       (IsImage(row[fields[j]].value) ==> present(ImageFile(row[fields[j]].value))))
  }

  /** A row's image checks pass exactly when every field is present and
      names an existing file when it is an image cell. */
  lemma {:induction false} ImageCheckPasses(row: Row, fields: seq<string>, present: string -> bool)
    ensures ImageCheck(row, fields, present) == Pass <==> ImagesPresent(row, fields, present)
  {
    if fields != [] {
      ImageCheckPasses(row, fields[1..], present);
      assert forall j :: 1 <= j < |fields| ==> fields[j] == fields[1..][j - 1];
    }
  }

  /** The loaded rows, when loading succeeds, are the file's rows in order,
      and loading succeeds exactly when every row passes its checks. */
  lemma {:induction false} ValidRowsKeeps(rows: seq<Row>, header: Option<seq<string>>, required: seq<string>, present: string -> bool)
    ensures ValidRows(rows, header, required, present).Ok? <==>
      forall i :: 0 <= i < |rows| ==> RowOutcome(rows[i], header, required, present) == Pass
    ensures ValidRows(rows, header, required, present).Ok? ==> ValidRows(rows, header, required, present).value == rows
  {
    if rows != [] {
      ValidRowsKeeps(rows[1..], header, required, present);
      assert forall i :: 1 <= i < |rows| ==> rows[i] == rows[1..][i - 1];
      assert [rows[0]] + rows[1..] == rows;
    }
  }

  /** A pool loaded from a CSV file holds the file's rows in order, every
      one with its stimulus and category filled in and every image cell
      naming an existing file; the load fails only when one of these, or
      a required column of the header, is missing. */
  lemma PoolIsValid(header: seq<string>, rows: seq<Row>, present: string -> bool)
    ensures var r := Pool(true, Some(header), rows, present);
      (r.Ok? <==>
        ("stimulus" in header && "category" in header &&
         forall i :: 0 <= i < |rows| ==> Filled(rows[i], RequiredFields) && ImagesPresent(rows[i], header, present))) &&
      (r.Ok? ==> r.value == rows)
  {
    StimuliUtils.HeaderCheckPasses(header, RequiredFields);
    ValidRowsKeeps(rows, Some(header), RequiredFields, present);
    forall i | 0 <= i < |rows|
      ensures RowOutcome(rows[i], Some(header), RequiredFields, present) == Pass <==>
        Filled(rows[i], RequiredFields) && ImagesPresent(rows[i], header, present)
    {
      StimuliUtils.RowCheckPasses(rows[i], RequiredFields);
      ImageCheckPasses(rows[i], header, present);
    }
  }

  /** `load_csv` as written: the header check, then the row loop. */
  method LoadCsv(header: Option<seq<string>>, rows: seq<Row>, requiredFields: Option<seq<string>>, present: string -> bool) returns (r: Result<seq<Row>>)
    ensures r == LoadSpec(header, rows, requiredFields, present)
  {
    var required := if requiredFields.Some? then requiredFields.value else [];
    var o := StimuliUtils.CheckHeader(header, required);
    if o.Fail? {
      return Err(o.error);
    }
    r := KeepRows(rows, header, required, present);
  }

  /** The loop over the rows: the required cells, then the image cells,
      and the row appended to `data`. */
  method KeepRows(rows: seq<Row>, header: Option<seq<string>>, required: seq<string>, present: string -> bool) returns (r: Result<seq<Row>>)
    ensures r == ValidRows(rows, header, required, present)
  {
    var data: seq<Row> := [];
    var i := 0;
    assert rows[0..] == rows;
    while i < |rows|
      invariant 0 <= i <= |rows|
      invariant ValidRows(rows, header, required, present) == StimuliUtils.After(data, ValidRows(rows[i..], header, required, present))
    {
      assert rows[i..][0] == rows[i] && rows[i..][1..] == rows[i + 1..];
      var o := StimuliUtils.CheckRow(rows[i], required);
      if o.Fail? {
        return Err(o.error);
      }
      if header.None? {
        return Err(TypeError);
      }
      o := CheckImages(rows[i], header.value, present);
      if o.Fail? {
        return Err(o.error);
      }
      match ValidRows(rows[i + 1..], header, required, present) {
        case Err(_) =>
        case Ok(rest) => assert data + ([rows[i]] + rest) == (data + [rows[i]]) + rest;
      }
      data := data + [rows[i]];
      i := i + 1;
    }
    assert rows[i..] == [] && data + [] == data;
    return Ok(data);
  }

  /** The inner loop over the header fields of one row. */
  method CheckImages(row: Row, fields: seq<string>, present: string -> bool) returns (o: Outcome)
    ensures o == ImageCheck(row, fields, present)
  {
    var j := 0;
    while j < |fields|
      invariant 0 <= j <= |fields|
      invariant ImageCheck(row, fields, present) == ImageCheck(row, fields[j..], present)
    {
      assert fields[j..][1..] == fields[j + 1..];
      if fields[j] !in row {
        return Fail(KeyError);
      }
      var val := row[fields[j]];
      if val.None? {
        return Fail(AttributeError);
      }
      if IsImage(val.value) && !present(ImageFile(val.value)) {
        return Fail(RuntimeError);
      }
      j := j + 1;
    }
    return Pass;
  }

  // ---- filtering the pool --------------------------------------------------

  /** `row['category'] == category`; a row without the column raises. */
  function IsCategory(category: string): Row -> Result<bool> {
    (row: Row) => if "category" !in row then Err(KeyError) else Ok(row["category"] == Some(category))
  }

  /** `filter_by_category(category)` over the pool. */
  function FilterByCategory(pool: seq<Row>, category: string): Result<seq<Row>> {
    StimuliUtils.Select(pool, IsCategory(category))
  }

  /** The rows kept are, in the pool's order, exactly those of the given
      category; only a row without a category column raises. */
  lemma FilterByCategoryKeeps(pool: seq<Row>, category: string)
    ensures var r := FilterByCategory(pool, category);
      (r.Ok? <==> forall i :: 0 <= i < |pool| ==> "category" in pool[i]) &&
      (r.Ok? ==> r.value == Records.Pick(pool, Records.Where(pool, StimuliUtils.Accepted(IsCategory(category))))) &&
      (r.Ok? ==> forall k :: 0 <= k < |r.value| ==> r.value[k] in pool && r.value[k]["category"] == Some(category)) &&
      (r.Ok? ==> forall i :: 0 <= i < |pool| && pool[i]["category"] == Some(category) ==> pool[i] in r.value)
  {
    var test := IsCategory(category);
    StimuliUtils.SelectIsWhere(pool, test);
    if StimuliUtils.Select(pool, test).Ok? {
      var idx := Records.Where(pool, StimuliUtils.Accepted(test));
      forall i | 0 <= i < |pool| && pool[i]["category"] == Some(category)
        ensures pool[i] in StimuliUtils.Select(pool, test).value
      {
        assert StimuliUtils.Accepted(test)(pool[i]);
        var k :| 0 <= k < |idx| && idx[k] == i;
        assert StimuliUtils.Select(pool, test).value[k] == pool[i];
      }
    }
  }
}
