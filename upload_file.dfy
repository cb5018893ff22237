/** The CSV upload page (`UploadFile.jsx`): parsed rows, the header list and a preview of at most
    fifteen rows, the optional row limit for the sample sent to dataset generation, and which
    section (table or charts) is shown. */
module UploadFile {
  import opened Js

  const PreviewLimit: nat := 15

  function Min(a: nat, b: nat): nat {
    if a <= b then a else b
  }

  /** The `kind` of a navigation button. */
  datatype Kind = TableKind | ImageKind

  /** `loadSection`: the initial "inputtable", "table" or "image". */
  datatype Section = InputTable | Table | Image

  /** The three navigation buttons: input table, output table and chart. */
  datatype NavButton = InputButton | OutputButton | ChartButton

  /** The generation request body: `{ size: sample.length, sample }`. */
  datatype GenerationRequest = GenerationRequest(size: nat, sample: seq<JsObject>)

  /** How the asynchronous part of a submit ends. `dataset` is `data?.dataset`, `None` when falsy.
      `ChartsFailed` is a failure after the output table was stored. */
  datatype GenerationOutcome =
    | RequestFailed
    | ChartsFailed(dataset: Option<seq<JsObject>>)
    | Generated(dataset: Option<seq<JsObject>>, csvUrl: string)

  /** The table is rendered only in the table section. */
  predicate ShowsTable(s: Section) {
    s == Table
  }

  /** The charts are rendered only in the image section. */
  predicate ShowsCharts(s: Section) {
    s == Image
  }

  /** `v ?? ""`. */
  function OrEmpty(v: JsValue): (c: JsValue)
    ensures c != Undefined && c != Null
    ensures v != Undefined && v != Null ==> c == v
    ensures v == Undefined || v == Null ==> c == Str("")
  {
    if v == Undefined || v == Null then Str("") else v
  }

  /** `headers.map((h) => row[h] ?? "")`: one cell per header, in header order. */
  function PreviewRow(row: JsObject, headers: seq<string>): (cells: seq<JsValue>)
    ensures |cells| == |headers|
    ensures forall j :: 0 <= j < |headers| ==> cells[j] == OrEmpty(Get(row, headers[j]))
  {
    if headers == [] then [] else [OrEmpty(Get(row, headers[0]))] + PreviewRow(row, headers[1..])
  }

  /** `rows.map(row => PreviewRow(row, headers))`. */
  function PreviewRows(rows: seq<JsObject>, headers: seq<string>): (table: seq<seq<JsValue>>)
    ensures |table| == |rows|
    ensures forall i :: 0 <= i < |rows| ==> table[i] == PreviewRow(rows[i], headers)
  {
    if rows == [] then [] else [PreviewRow(rows[0], headers)] + PreviewRows(rows[1..], headers)
  }

  /** `rows.slice(0, 15).map(...)`. */
  function Preview(rows: seq<JsObject>, headers: seq<string>): seq<seq<JsValue>> {
    PreviewRows(rows[..Min(PreviewLimit, |rows|)], headers)
  }

  /** The preview holds the first rows, at most fifteen, each with exactly one cell per header:
      the row's value under that header, or "" where it is missing or null. */
  lemma PreviewShape(rows: seq<JsObject>, headers: seq<string>)
    ensures |Preview(rows, headers)| == Min(PreviewLimit, |rows|) <= PreviewLimit
    ensures forall i, j :: 0 <= i < |Preview(rows, headers)| && 0 <= j < |headers| ==>
      |Preview(rows, headers)[i]| == |headers| &&
      Preview(rows, headers)[i][j] == OrEmpty(Get(rows[i], headers[j]))
  {
  }

  /** `rows.filter((r) => Object.keys(r).length)`. */
  function NonEmptyRows(rows: seq<JsObject>): (kept: seq<JsObject>)
    ensures |kept| <= |rows|
    ensures forall r :: r in kept <==> r in rows && r != []
  {
    if rows == [] then []
    else (if rows[0] != [] then [rows[0]] else []) + NonEmptyRows(rows[1..])
  }

  /** The filter works row by row, so it keeps the order of the rows it keeps. */
  lemma {:induction false} NonEmptyRowsAppend(a: seq<JsObject>, b: seq<JsObject>)
    ensures NonEmptyRows(a + b) == NonEmptyRows(a) + NonEmptyRows(b)
  {
    if a != [] {
      assert (a + b)[1..] == a[1..] + b;
      NonEmptyRowsAppend(a[1..], b);
    } else {
      assert a + b == b;
    }
  }

  /** Rows that all have keys are kept as they are. */
  lemma {:induction false} NonEmptyRowsKeepsAll(rows: seq<JsObject>)
    requires forall i :: 0 <= i < |rows| ==> rows[i] != []
    ensures NonEmptyRows(rows) == rows
  {
    if rows != [] {
      NonEmptyRowsKeepsAll(rows[1..]);
    }
  }

  /** `Number.isFinite(n) && n > 0 ? rows.slice(0, n) : rows`, `n` being `parseInt(rowsToProcess, 10)`. */
  function Sample(rows: seq<JsObject>, n: Option<int>): (sample: seq<JsObject>)
    ensures |sample| <= |rows| && sample == rows[..|sample|]
    ensures n.Some? && n.value > 0 ==> |sample| == Min(n.value, |rows|)
    ensures !(n.Some? && n.value > 0) ==> sample == rows
  {
    if n.Some? && n.value > 0 then rows[..Min(n.value, |rows|)] else rows
  }

  /** Typing a positive count selects that many leading rows (all of them when there are fewer). */
  lemma SampleOfTypedCount(rows: seq<JsObject>, k: nat)
    requires k > 0
    ensures Sample(rows, ParseInt(DecimalString(k))) == rows[..Min(k, |rows|)]
  {
    ParseIntDecimal(k);
  }

  /** A negative or zero row limit leaves the whole file as the sample. */
  lemma SampleOfNonPositiveCount(rows: seq<JsObject>, k: nat)
    ensures Sample(rows, ParseInt("-" + DecimalString(k))) == rows
  {
    ParseIntDecimal(k);
  }

  /** An empty row-limit box leaves the whole file as the sample. */
  lemma SampleOfEmptyCount(rows: seq<JsObject>)
    ensures Sample(rows, ParseInt("")) == rows
  {
    assert TrimStart("") == "" && Unsigned("") == "";
    assert DigitPrefix("") == [];
  }

  class UploadPage {
    var parsedData: seq<JsObject>
    var tableRows: seq<string>
    var values: seq<seq<JsValue>>
    var rowsToProcess: string
    var downloadUrl: string
    var loading: bool
    var isFileExist: bool
    var inputJsonData: Option<seq<JsObject>>
    var outputJsonData: Option<seq<JsObject>>
    var loadSection: Section

    /** The page as first rendered: nothing parsed, the "inputtable" section, which shows neither
        the table nor the charts. */
    constructor ()
      ensures parsedData == [] && tableRows == [] && values == [] && rowsToProcess == ""
      ensures downloadUrl == "" && !loading && !isFileExist
      ensures inputJsonData == None && outputJsonData == None
      ensures loadSection == InputTable && !ShowsTable(loadSection) && !ShowsCharts(loadSection)
    {
      parsedData := [];
      tableRows := [];
      values := [];
      rowsToProcess := "";
      downloadUrl := "";
      loading := false;
      isFileExist := false;
      inputJsonData := None;
      outputJsonData := None;
      loadSection := InputTable;
    }

    /** `handleCsvParsing(jsonData, kind)`; `None` stands for a null or non-array value. */
    method HandleCsvParsing(jsonData: Option<seq<JsObject>>, kind: Kind)
      modifies this
      ensures jsonData.None? || jsonData.value == [] ==>
        tableRows == [] && values == [] && loadSection == (if kind == ImageKind then Image else Table)
      ensures jsonData.Some? && jsonData.value != [] && kind != TableKind ==>
        loadSection == Image && tableRows == old(tableRows) && values == old(values)
      ensures jsonData.Some? && jsonData.value != [] && kind == TableKind ==>
        var headers := Keys(jsonData.value[0]);
        tableRows == headers && values == Preview(jsonData.value, headers) && loadSection == Table
      ensures parsedData == old(parsedData) && rowsToProcess == old(rowsToProcess)
      ensures downloadUrl == old(downloadUrl) && loading == old(loading) && isFileExist == old(isFileExist)
      ensures inputJsonData == old(inputJsonData) && outputJsonData == old(outputJsonData)
    {
      if jsonData.None? || jsonData.value == [] {
        tableRows := [];
        values := [];
        loadSection := if kind == ImageKind then Image else Table;
        return;
      }
      if kind != TableKind {
        loadSection := Image;
        return;
      }
      var headers := Keys(jsonData.value[0]);
      tableRows := headers;
      values := Preview(jsonData.value, headers);
      loadSection := Table;
    }

    /** A click on a navigation button shows the data that button carries. */
    method Navigate(b: NavButton)
      modifies this
      ensures var data := if b == InputButton then old(inputJsonData) else old(outputJsonData);
        var kind := if b == ChartButton then ImageKind else TableKind;
        && (data.None? || data.value == [] ==>
              tableRows == [] && values == [] && loadSection == (if kind == ImageKind then Image else Table))
        && (data.Some? && data.value != [] && kind != TableKind ==>
              loadSection == Image && tableRows == old(tableRows) && values == old(values))
        && (data.Some? && data.value != [] && kind == TableKind ==>
              tableRows == Keys(data.value[0]) && values == Preview(data.value, Keys(data.value[0])) && loadSection == Table)
      ensures parsedData == old(parsedData) && inputJsonData == old(inputJsonData) && outputJsonData == old(outputJsonData)
      ensures downloadUrl == old(downloadUrl) && loading == old(loading) && isFileExist == old(isFileExist)
      ensures rowsToProcess == old(rowsToProcess)
    {
      var data := if b == InputButton then inputJsonData else outputJsonData;
      var kind := if b == ChartButton then ImageKind else TableKind;
      HandleCsvParsing(data, kind);
    }

    /** The row-limit box. */
    method SetRowsToProcess(text: string)
      modifies this`rowsToProcess
      ensures rowsToProcess == text
    {
      rowsToProcess := text;
    }

    /** The parser's `complete` callback for a chosen file; `None` stands for non-array data.
        Rows without keys are dropped, and the preview is built from the rows that remain. */
    method OnParseComplete(data: Option<seq<JsObject>>)
      modifies this`parsedData, this`tableRows, this`values
      ensures parsedData == NonEmptyRows(data.GetOr([]))
      ensures parsedData != [] ==>
        tableRows == Keys(parsedData[0]) && values == Preview(parsedData, Keys(parsedData[0]))
      ensures parsedData == [] ==> tableRows == [] && values == []
    {
      var rows := NonEmptyRows(data.GetOr([]));
      parsedData := rows;
      if rows != [] {
        var headers := Keys(rows[0]);
        tableRows := headers;
        values := Preview(rows, headers);
      } else {
        tableRows := [];
        values := [];
      }
    }

    /** `handleSubmit` up to the first request: nothing without parsed rows; otherwise the sample
        is stored, loading starts, the previous download is cleared, and the generation request
        carries the sample with its length as the size. The button is disabled while loading. */
    method HandleSubmit() returns (request: Option<GenerationRequest>)
      requires !loading
      modifies this
      ensures old(parsedData) == [] ==> request == None && unchanged(this)
      ensures old(parsedData) != [] ==>
        var sample := Sample(old(parsedData), ParseInt(old(rowsToProcess)));
        && request == Some(GenerationRequest(|sample|, sample))
        && inputJsonData == Some(sample) && loading && downloadUrl == "" && !isFileExist
        && parsedData == old(parsedData) && tableRows == old(tableRows) && values == old(values)
        && rowsToProcess == old(rowsToProcess) && outputJsonData == old(outputJsonData)
        && loadSection == old(loadSection)
    {
      if parsedData == [] {
        return None;
      }
      var sample := Sample(parsedData, ParseInt(rowsToProcess));
      inputJsonData := Some(sample);
      loading := true;
      downloadUrl := "";
      isFileExist := false;
      request := Some(GenerationRequest(|sample|, sample));
    }

    /** The end of `handleSubmit`: the output table (`data?.dataset || []`) is stored once the
        generation answers; the download link and the chart section follow only on full
        success; loading always ends. */
    method FinishGeneration(outcome: GenerationOutcome)
      modifies this
      ensures !loading
      ensures outcome.RequestFailed? ==> outputJsonData == old(outputJsonData)
      ensures !outcome.RequestFailed? ==> outputJsonData == Some(outcome.dataset.GetOr([]))
      ensures outcome.Generated? ==> downloadUrl == outcome.csvUrl && isFileExist && loadSection == Image
      ensures !outcome.Generated? ==>
        downloadUrl == old(downloadUrl) && isFileExist == old(isFileExist) && loadSection == old(loadSection)
      ensures parsedData == old(parsedData) && tableRows == old(tableRows) && values == old(values)
      ensures rowsToProcess == old(rowsToProcess) && inputJsonData == old(inputJsonData)
    {
      if !outcome.RequestFailed? {
        outputJsonData := Some(outcome.dataset.GetOr([]));
      }
      if outcome.Generated? {
        downloadUrl := outcome.csvUrl;
        isFileExist := true;
        loadSection := Image;
      }
      loading := false;
    }

    /** `downloadFile`: the link followed for the download, none while no CSV was built. */
    method DownloadFile() returns (href: Option<string>)
      ensures href.None? <==> downloadUrl == ""
      ensures href.Some? ==> href.value == downloadUrl
    {
      if downloadUrl == "" {
        return None;
      }
      return Some(downloadUrl);
    }
  }
}
