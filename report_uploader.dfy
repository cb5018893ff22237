/** The medical report uploader (`ReportUploader.jsx`): the selected file, the extracted text,
    the formatted copy kept in step with it, and the line-by-line pagination of the PDF download. */
module ReportUploader {
  import opened Js

  const Margin: int := 40
  const LineHeight: int := 16

  const NoSelectionAlert := "Please upload an image first."
  const FetchErrorText := "Error occurred while fetching data."
  const EmptyDocumentText := "No content"

  /** A drawing call on the PDF document. */
  datatype PdfOp = AddPage | Text(line: string, x: int, y: int)

  /** How the extraction request ends: `data?.data`, absent when null or missing, or a failure. */
  datatype ExtractResponse = Extracted(text: Option<string>) | ExtractFailed

  /** `formattedText || "No content"`. */
  function DownloadText(formatted: string): (t: string)
    ensures t != ""
    ensures formatted != "" ==> t == formatted
  {
    if formatted != "" then formatted else EmptyDocumentText
  }

  /** The calls the `forEach` loop makes for `lines`, with the cursor at `y`. */
  function Layout(lines: seq<string>, pageHeight: int, y: int): seq<PdfOp>
    decreases |lines|
  {
    if lines == [] then []
    else if y + LineHeight > pageHeight - Margin then
      [AddPage, Text(lines[0], Margin, Margin)] + Layout(lines[1..], pageHeight, Margin + LineHeight)
    else
      [Text(lines[0], Margin, y)] + Layout(lines[1..], pageHeight, y + LineHeight)
  }

  /** The texts drawn by a run of calls, in order. */
  function Drawn(ops: seq<PdfOp>): seq<string> {
    if ops == [] then []
    else (if ops[0].Text? then [ops[0].line] else []) + Drawn(ops[1..])
  }

  lemma {:induction false} DrawnAppend(a: seq<PdfOp>, b: seq<PdfOp>)
    ensures Drawn(a + b) == Drawn(a) + Drawn(b)
  {
    if a != [] {
      assert (a + b)[1..] == a[1..] + b;
      DrawnAppend(a[1..], b);
    } else {
      assert a + b == b;
    }
  }

  /** Every line is drawn exactly once, in order. */
  lemma {:induction false} EveryLineDrawnOnce(lines: seq<string>, pageHeight: int, y: int)
    ensures Drawn(Layout(lines, pageHeight, y)) == lines
  {
    if lines != [] {
      var step := if y + LineHeight > pageHeight - Margin then Margin + LineHeight else y + LineHeight;
      var head := if y + LineHeight > pageHeight - Margin then [AddPage, Text(lines[0], Margin, Margin)]
                  else [Text(lines[0], Margin, y)];
      EveryLineDrawnOnce(lines[1..], pageHeight, step);
      DrawnAppend(head, Layout(lines[1..], pageHeight, step));
      assert Drawn(head) == [lines[0]];
      assert [lines[0]] + lines[1..] == lines;
    }
  }

  /** Every line is drawn at the left margin. */
  lemma {:induction false} DrawnAtMargin(lines: seq<string>, pageHeight: int, y: int)
    ensures forall i :: 0 <= i < |Layout(lines, pageHeight, y)| && Layout(lines, pageHeight, y)[i].Text? ==>
      Layout(lines, pageHeight, y)[i].x == Margin
  {
    if lines != [] {
      var step := if y + LineHeight > pageHeight - Margin then Margin + LineHeight else y + LineHeight;
      DrawnAtMargin(lines[1..], pageHeight, step);
    }
  }

  /** On a page at least 96 points high, with the cursor starting inside the top margin, every
      line lies between the top margin and the bottom margin. */
  lemma {:induction false} LinesInsideMargins(lines: seq<string>, pageHeight: int, y: int)
    requires pageHeight >= 2 * Margin + LineHeight && y >= Margin
    ensures var ops := Layout(lines, pageHeight, y);
      forall i :: 0 <= i < |ops| && ops[i].Text? ==> Margin <= ops[i].y && ops[i].y + LineHeight <= pageHeight - Margin
  {
    if lines != [] {
      var broke := y + LineHeight > pageHeight - Margin;
      var next := if broke then Margin + LineHeight else y + LineHeight;
      var head := if broke then [AddPage, Text(lines[0], Margin, Margin)] else [Text(lines[0], Margin, y)];
      var rest := Layout(lines[1..], pageHeight, next);
      var ops := Layout(lines, pageHeight, y);
      assert ops == head + rest;
      LinesInsideMargins(lines[1..], pageHeight, next);
      assert var o := Layout(lines[1..], pageHeight, next);
        forall i :: 0 <= i < |o| && o[i].Text? ==> Margin <= o[i].y && o[i].y + LineHeight <= pageHeight - Margin;
      forall i | 0 <= i < |ops| && ops[i].Text?
        ensures Margin <= ops[i].y && ops[i].y + LineHeight <= pageHeight - Margin
      {
        if i >= |head| {
          assert ops[i] == rest[i - |head|];
        } else {
          assert ops[i] == head[i];
        }
      }
    }
  }

  /** The first call for a line at cursor `y`: `y` when the line fits above the bottom margin,
      otherwise a new page. */
  lemma LayoutHead(lines: seq<string>, pageHeight: int, y: int)
    requires lines != []
    ensures var ops := Layout(lines, pageHeight, y);
      && (y + LineHeight > pageHeight - Margin <==> ops[0] == AddPage)
      && (y + LineHeight <= pageHeight - Margin ==> ops[0] == Text(lines[0], Margin, y))
  {
  }

  /** A new page is followed at once by a line at the top margin. */
  lemma {:induction false} NewPageStartsAtTop(lines: seq<string>, pageHeight: int, y: int)
    ensures var ops := Layout(lines, pageHeight, y);
      forall i :: 0 <= i < |ops| && ops[i] == AddPage ==> i + 1 < |ops| && ops[i + 1].Text? && ops[i + 1].y == Margin
  {
    if lines != [] {
      var broke := y + LineHeight > pageHeight - Margin;
      var next := if broke then Margin + LineHeight else y + LineHeight;
      var head := if broke then [AddPage, Text(lines[0], Margin, Margin)] else [Text(lines[0], Margin, y)];
      var rest := Layout(lines[1..], pageHeight, next);
      var ops := Layout(lines, pageHeight, y);
      assert ops == head + rest;
      NewPageStartsAtTop(lines[1..], pageHeight, next);
      assert var o := Layout(lines[1..], pageHeight, next);
        forall j :: 0 <= j < |o| && o[j] == AddPage ==> j + 1 < |o| && o[j + 1].Text? && o[j + 1].y == Margin;
      forall i | 0 <= i < |ops| && ops[i] == AddPage
        ensures i + 1 < |ops| && ops[i + 1].Text? && ops[i + 1].y == Margin
      {
        if i >= |head| {
          assert ops[i] == rest[i - |head|];
          assert i + 1 - |head| < |rest|;
          assert ops[i + 1] == rest[i + 1 - |head|];
        } else {
          assert broke && i == 0 && ops[1] == head[1];
        }
      }
    }
  }

  /** After a line, a new page starts exactly when the next line would cross the bottom margin. */
  lemma {:induction false} PageBreaks(lines: seq<string>, pageHeight: int, y: int)
    ensures var ops := Layout(lines, pageHeight, y);
      forall i :: 0 <= i < |ops| - 1 && ops[i].Text? ==>
        (ops[i + 1] == AddPage <==> ops[i].y + 2 * LineHeight > pageHeight - Margin)
  {
    if lines != [] {
      var broke := y + LineHeight > pageHeight - Margin;
      var next := if broke then Margin + LineHeight else y + LineHeight;
      var head := if broke then [AddPage, Text(lines[0], Margin, Margin)] else [Text(lines[0], Margin, y)];
      var rest := Layout(lines[1..], pageHeight, next);
      var ops := Layout(lines, pageHeight, y);
      assert ops == head + rest;
      PageBreaks(lines[1..], pageHeight, next);
      if rest != [] {
        LayoutHead(lines[1..], pageHeight, next);
      }
      forall i | 0 <= i < |ops| - 1 && ops[i].Text?
        ensures ops[i + 1] == AddPage <==> ops[i].y + 2 * LineHeight > pageHeight - Margin
      {
        if i >= |head| {
          assert ops[i] == rest[i - |head|] && ops[i + 1] == rest[i + 1 - |head|];
        } else {
          assert ops[i].y == next - LineHeight;
        }
      }
    }
  }

  /** Between two lines on one page the cursor moves down by one line height. */
  lemma {:induction false} LinesAdvance(lines: seq<string>, pageHeight: int, y: int)
    ensures var ops := Layout(lines, pageHeight, y);
      forall i :: 0 <= i < |ops| - 1 && ops[i].Text? && ops[i + 1].Text? ==> ops[i + 1].y == ops[i].y + LineHeight
  {
    if lines != [] {
      var broke := y + LineHeight > pageHeight - Margin;
      var next := if broke then Margin + LineHeight else y + LineHeight;
      var head := if broke then [AddPage, Text(lines[0], Margin, Margin)] else [Text(lines[0], Margin, y)];
      var rest := Layout(lines[1..], pageHeight, next);
      var ops := Layout(lines, pageHeight, y);
      assert ops == head + rest;
      LinesAdvance(lines[1..], pageHeight, next);
      if rest != [] {
        LayoutHead(lines[1..], pageHeight, next);
      }
      forall i | 0 <= i < |ops| - 1 && ops[i].Text? && ops[i + 1].Text?
        ensures ops[i + 1].y == ops[i].y + LineHeight
      {
        if i >= |head| {
          assert ops[i] == rest[i - |head|] && ops[i + 1] == rest[i + 1 - |head|];
        }
      }
    }
  }

  /** One line of the layout after the calls `ops` already made: an optional new page, the
      line at the top of the page or at the cursor, then the other lines one line height lower. */
  lemma LayoutStep(ops: seq<PdfOp>, lines: seq<string>, pageHeight: int, y: int)
    requires lines != []
    ensures y + LineHeight > pageHeight - Margin ==>
      ops + [AddPage] + [Text(lines[0], Margin, Margin)] + Layout(lines[1..], pageHeight, Margin + LineHeight)
        == ops + Layout(lines, pageHeight, y)
    ensures y + LineHeight <= pageHeight - Margin ==>
      ops + [Text(lines[0], Margin, y)] + Layout(lines[1..], pageHeight, y + LineHeight)
        == ops + Layout(lines, pageHeight, y)
  {
    if y + LineHeight > pageHeight - Margin {
      var rest := Layout(lines[1..], pageHeight, Margin + LineHeight);
      assert Layout(lines, pageHeight, y) == [AddPage, Text(lines[0], Margin, Margin)] + rest;
      assert ops + [AddPage] + [Text(lines[0], Margin, Margin)] + rest == ops + ([AddPage, Text(lines[0], Margin, Margin)] + rest);
    } else {
      var rest := Layout(lines[1..], pageHeight, y + LineHeight);
      assert Layout(lines, pageHeight, y) == [Text(lines[0], Margin, y)] + rest;
      assert ops + [Text(lines[0], Margin, y)] + rest == ops + ([Text(lines[0], Margin, y)] + rest);
    }
  }

  /** `handleDownload`'s loop, drawing `lines` (what `splitTextToSize` returned) on pages
      `pageHeight` points high, with the cursor starting at the top margin. */
  method Paginate(lines: seq<string>, pageHeight: int) returns (ops: seq<PdfOp>)
    ensures ops == Layout(lines, pageHeight, Margin)
  {
    ops := [];
    var y := Margin;
    var i := 0;
    while i < |lines|
      invariant 0 <= i <= |lines|
      invariant ops + Layout(lines[i..], pageHeight, y) == Layout(lines, pageHeight, Margin)
    {
      assert lines[i..][0] == lines[i] && lines[i..][1..] == lines[i + 1..];
      LayoutStep(ops, lines[i..], pageHeight, y);
      if y + LineHeight > pageHeight - Margin {
        ops := ops + [AddPage];
        y := Margin;
      }
      ops := ops + [Text(lines[i], Margin, y)];
      y := y + LineHeight;
      i := i + 1;
    }
    assert lines[i..] == [];
  }

  class ReportPage {
    var selectedFile: Option<FileInfo>
    var loading: bool
    var responseData: string
    var formattedText: string

    /** The effect on `responseData`: a non-empty response is always mirrored in the formatted text. */
    ghost predicate Valid()
      reads this
    {
      responseData != "" ==> formattedText == responseData
    }

    constructor ()
      ensures Valid()
      ensures selectedFile == None && !loading && responseData == "" && formattedText == ""
    {
      selectedFile := None;
      loading := false;
      responseData := "";
      formattedText := "";
    }

    /** `handleFileChange`: the new selection (none when the picker is emptied) and both texts cleared. */
    method FileChange(file: Option<FileInfo>)
      modifies this
      ensures Valid()
      ensures selectedFile == file && responseData == "" && formattedText == "" && loading == old(loading)
    {
      selectedFile := file;
      responseData := "";
      formattedText := "";
    }

    /** `handleSubmit` up to the request: without a file only the alert; otherwise loading starts. */
    method Submit() returns (sent: Option<FileInfo>, alert: Option<string>)
      requires Valid() && !loading
      modifies this
      ensures Valid()
      ensures sent == old(selectedFile)
      ensures sent.None? ==> alert == Some(NoSelectionAlert) && !loading
      ensures sent.Some? ==> alert == None && loading
      ensures selectedFile == old(selectedFile) && responseData == old(responseData) && formattedText == old(formattedText)
    {
      if selectedFile.None? {
        return None, Some(NoSelectionAlert);
      }
      loading := true;
      return selectedFile, None;
    }

    /** The end of `handleSubmit`, followed by the effect: the response becomes the extracted text
        (or "" when missing) or the fixed error, and a non-empty one is copied to the formatted text. */
    method Finish(response: ExtractResponse)
      requires Valid()
      modifies this
      ensures Valid() && !loading
      ensures responseData == (if response.Extracted? then response.text.GetOr("") else FetchErrorText)
      ensures formattedText == (if responseData != "" then responseData else old(formattedText))
      ensures selectedFile == old(selectedFile)
    {
      responseData := if response.Extracted? then response.text.GetOr("") else FetchErrorText;
      loading := false;
      if responseData != "" {
        formattedText := responseData;
      }
    }

    /** `handleDownload`: the formatted text, or "No content", wrapped by `wrap` and paginated. */
    method Download(wrap: string -> seq<string>, pageHeight: int) returns (ops: seq<PdfOp>)
      ensures ops == Layout(wrap(DownloadText(formattedText)), pageHeight, Margin)
    {
      var lines := wrap(DownloadText(formattedText));
      ops := Paginate(lines, pageHeight);
    }
  }
}
