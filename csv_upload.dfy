/** What the two CSV bulk-upload routes share: the uploaded file, the
    parser's outcome, and zod's `preprocess` of a cell. Rows come from
    `Papa.parse(text, { header: true, skipEmptyLines: true })`, so each
    cell is a string, or absent when the header has no such column. */
module CsvUpload {
  import opened Wrappers
  import opened Runtime

  /** The `csvFile` form entry: its MIME type and what the parser made of
      its text, `None` when the parser reported errors. */
  datatype CsvFile<Row> = CsvFile(mimeType: string, rows: Option<seq<Row>>)

  /** The file types the routes accept. */
  predicate IsCsvType(t: string) {
    t == "text/csv" || t == "application/vnd.ms-excel"
  }

  /** The CSV row number of the row at index `i`: rows count from 1 and the
      header is row 1. */
  function RowNumber(i: nat): (n: int)
    ensures n >= 2
  {
    i + 2
  }

  /** The row number of the parser's error entry. */
  const ParseErrorRow: int := -1

  /** `val === "" || val === null || val === undefined`. */
  predicate Blank(v: Option<string>) {
    v.None? || v.value == ""
  }

  /** `rowData.x || 'N/A'`: the raw cell, or "N/A" when it is absent or empty. */
  function CellOrNA(v: Option<string>): (r: string)
    ensures Blank(v) ==> r == "N/A"
    ensures !Blank(v) ==> r == v.value
  {
    if Blank(v) then "N/A" else v.value
  }

  /** A numeric cell: a blank cell is `undefined`, any other is `Number(val)`,
      which zod then requires to be a number of at least 0. The outer None is
      a validation failure, `Some(None)` an absent value. */
  function CountCell(v: Option<string>, env: Env): (r: Option<Option<int>>)
    ensures Blank(v) ==> r == Some(None)
    ensures !Blank(v) ==> (r.Some? <==> env.numberOf(v.value).Some? && env.numberOf(v.value).value >= 0)
    ensures r.Some? && r.value.Some? ==> !Blank(v) && r.value == env.numberOf(v.value) && r.value.value >= 0
    ensures !Blank(v) && r.Some? ==> r.value == env.numberOf(v.value)
  {
    if Blank(v) then Some(None)
    else match env.numberOf(v.value)
      case None => None
      case Some(n) => if n >= 0 then Some(Some(n)) else None
  }

  /** A date cell: a blank cell is `undefined`, any other must be an ISO 8601
      date-time with offset, and becomes `new Date(val)`. */
  function DateCell(v: Option<string>, env: Env): (r: Option<Option<int>>)
    ensures Blank(v) ==> r == Some(None)
    ensures !Blank(v) ==> (r.Some? <==> env.isoDateOf(v.value).Some?)
    ensures r.Some? && r.value.Some? ==> !Blank(v) && r.value == env.isoDateOf(v.value)
    ensures !Blank(v) && r.Some? ==> r.value == env.isoDateOf(v.value)
  {
    if Blank(v) then Some(None)
    else match env.isoDateOf(v.value)
      case None => None
      case Some(t) => Some(Some(t))
  }

  /** The route's answer before any row is looked at, when it stops early:
      401 without a session, 400 without a file or for another file type. */
  function Gate<Row>(session: bool, file: Option<CsvFile<Row>>): (r: Option<int>)
    ensures r.None? <==> session && file.Some? && IsCsvType(file.value.mimeType)
    ensures r == Some(401) <==> !session
  {
    if !session then Some(401)
    else if file.None? then Some(400)
    else if !IsCsvType(file.value.mimeType) then Some(400)
    else None
  }
}
