/** The dataset-from-description form (`DynamicForm.js`): a growing list of field/description
    pairs, validation of the requested size and of the pairs, the request built from the
    complete pairs, and the download state once a dataset comes back. */
module DynamicForm {
  import opened Js

  /** One row of the form. */
  datatype FieldEntry = FieldEntry(field: string, description: string)

  /** The `name` of the input being edited. */
  datatype FieldKey = FieldName | DescriptionName

  /** The request body: the size and the trimmed names and descriptions of the complete rows. */
  datatype DatasetRequest = DatasetRequest(size: real, fields: seq<string>, descriptions: seq<string>)

  /** Why a submission is refused before any request. */
  datatype FormError = InvalidSize | NoCompleteField

  /** How the request ends: a dataset array and the object URL of its CSV, or any failure. */
  datatype GenerationResponse = GenerationFailed | DatasetReturned(rows: seq<JsObject>, csvUrl: string)

  const FailureAlert := "Failed to generate dataset. Check console for details."

  /** The alert each refusal shows. */
  function AlertText(e: FormError): string {
    match e
    case InvalidSize => "Please enter a valid dataset size (> 0)."
    case NoCompleteField => "Please add at least one field with a description."
  }

  /** A row is sent only when both its name and its description have something besides whitespace. */
  predicate Complete(f: FieldEntry) {
    !IsBlank(f.field) && !IsBlank(f.description)
  }

  /** `fields.filter(...)`: the complete rows, in order. */
  function CompleteEntries(fs: seq<FieldEntry>): (kept: seq<FieldEntry>)
    ensures |kept| <= |fs|
    ensures forall f :: f in kept <==> f in fs && Complete(f)
  {
    if fs == [] then []
    else (if Complete(fs[0]) then [fs[0]] else []) + CompleteEntries(fs[1..])
  }

  /** Filtering keeps the order of the rows: the complete rows of two lists are those of the first, then those of the second. */
  lemma {:induction false} CompleteEntriesAppend(a: seq<FieldEntry>, b: seq<FieldEntry>)
    ensures CompleteEntries(a + b) == CompleteEntries(a) + CompleteEntries(b)
  {
    if a != [] {
      assert (a + b)[1..] == a[1..] + b;
      CompleteEntriesAppend(a[1..], b);
    } else {
      assert a + b == b;
    }
  }

  /** `nonEmpty.map((f) => f.field.trim())`. */
  function TrimmedFields(fs: seq<FieldEntry>): (names: seq<string>)
    ensures |names| == |fs|
    ensures forall i :: 0 <= i < |fs| ==> names[i] == Trim(fs[i].field)
  {
    if fs == [] then [] else [Trim(fs[0].field)] + TrimmedFields(fs[1..])
  }

  /** `nonEmpty.map((f) => f.description.trim())`. */
  function TrimmedDescriptions(fs: seq<FieldEntry>): (descs: seq<string>)
    ensures |descs| == |fs|
    ensures forall i :: 0 <= i < |fs| ==> descs[i] == Trim(fs[i].description)
  {
    if fs == [] then [] else [Trim(fs[0].description)] + TrimmedDescriptions(fs[1..])
  }

  /** The rows a request would be rebuilt from: its names paired with its descriptions. */
  function Pairs(names: seq<string>, descs: seq<string>): (fs: seq<FieldEntry>)
    requires |names| == |descs|
    ensures |fs| == |names|
    ensures forall i :: 0 <= i < |fs| ==> fs[i] == FieldEntry(names[i], descs[i])
  {
    if names == [] then [] else [FieldEntry(names[0], descs[0])] + Pairs(names[1..], descs[1..])
  }

  /** The checks of `handleSubmit`, size first, on `Number(size)`. */
  function ValidateSubmission(sizeNum: JsNumber, fs: seq<FieldEntry>): (r: Result<DatasetRequest, FormError>)
    ensures r == Err(InvalidSize) <==> !(IsFinite(sizeNum) && sizeNum.value > 0.0)
    ensures r == Err(NoCompleteField) <==>
      IsFinite(sizeNum) && sizeNum.value > 0.0 && CompleteEntries(fs) == []
    ensures r.Ok? ==>
      && r.value.size == sizeNum.value > 0.0
      && |r.value.fields| == |r.value.descriptions| >= 1
      && r.value.fields == TrimmedFields(CompleteEntries(fs))
      && r.value.descriptions == TrimmedDescriptions(CompleteEntries(fs))
  {
    var kept := CompleteEntries(fs);
    if !(IsFinite(sizeNum) && sizeNum.value > 0.0) then Err(InvalidSize)
    else if |kept| == 0 then
      Err(NoCompleteField)
    else
      Ok(DatasetRequest(sizeNum.value, TrimmedFields(kept), TrimmedDescriptions(kept)))
  }

  /** A submission with a valid size is refused for its rows exactly when no row is complete. */
  lemma NoCompleteFieldIffNoneComplete(sizeNum: JsNumber, fs: seq<FieldEntry>)
    requires IsFinite(sizeNum) && sizeNum.value > 0.0
    ensures ValidateSubmission(sizeNum, fs) == Err(NoCompleteField) <==> forall f :: f in fs ==> !Complete(f)
  {
    var kept := CompleteEntries(fs);
    if kept != [] {
      assert kept[0] in kept;
    }
  }

  /** Every name and description sent is trimmed and not empty, and comes from a row of the form. */
  lemma RequestEntriesNonBlank(sizeNum: JsNumber, fs: seq<FieldEntry>)
    requires ValidateSubmission(sizeNum, fs).Ok?
    ensures var req := ValidateSubmission(sizeNum, fs).value;
      forall i :: 0 <= i < |req.fields| ==>
        && req.fields[i] != "" && Trim(req.fields[i]) == req.fields[i]
        && req.descriptions[i] != "" && Trim(req.descriptions[i]) == req.descriptions[i]
        && exists f :: f in fs && req.fields[i] == Trim(f.field) && req.descriptions[i] == Trim(f.description)
  {
    var kept := CompleteEntries(fs);
    var req := ValidateSubmission(sizeNum, fs).value;
    forall i | 0 <= i < |req.fields|
      ensures req.fields[i] != "" && Trim(req.fields[i]) == req.fields[i]
      ensures req.descriptions[i] != "" && Trim(req.descriptions[i]) == req.descriptions[i]
      ensures exists f :: f in fs && req.fields[i] == Trim(f.field) && req.descriptions[i] == Trim(f.description)
    {
      assert kept[i] in kept;
      TrimmedNonBlank(kept[i].field);
      TrimmedNonBlank(kept[i].description);
      TrimIdempotent(kept[i].field);
      TrimIdempotent(kept[i].description);
    }
  }

  /** A list of rows that are all complete is kept whole. */
  lemma {:induction false} CompleteEntriesKeepsAll(fs: seq<FieldEntry>)
    requires forall i :: 0 <= i < |fs| ==> Complete(fs[i])
    ensures CompleteEntries(fs) == fs
  {
    if fs != [] {
      CompleteEntriesKeepsAll(fs[1..]);
    }
  }

  /** Filling the form with exactly the names and descriptions a submission sent and submitting
      again sends the same request: validation and trimming are idempotent. */
  lemma ResubmitSameRequest(sizeNum: JsNumber, fs: seq<FieldEntry>)
    requires ValidateSubmission(sizeNum, fs).Ok?
    ensures var req := ValidateSubmission(sizeNum, fs).value;
      ValidateSubmission(sizeNum, Pairs(req.fields, req.descriptions)) == Ok(req)
  {
    var req := ValidateSubmission(sizeNum, fs).value;
    var again := Pairs(req.fields, req.descriptions);
    RequestEntriesNonBlank(sizeNum, fs);
    forall i | 0 <= i < |again| ensures Complete(again[i]) {
      assert again[i] == FieldEntry(req.fields[i], req.descriptions[i]);
    }
    CompleteEntriesKeepsAll(again);
    TrimmedPairs(req.fields, req.descriptions);
  }

  /** Trimming rows whose texts are already trimmed gives those texts back. */
  lemma TrimmedPairs(names: seq<string>, descs: seq<string>)
    requires |names| == |descs|
    requires forall i :: 0 <= i < |names| ==> Trim(names[i]) == names[i] && Trim(descs[i]) == descs[i]
    ensures TrimmedFields(Pairs(names, descs)) == names
    ensures TrimmedDescriptions(Pairs(names, descs)) == descs
  {
    var rows := Pairs(names, descs);
    var ns := TrimmedFields(rows);
    var ds := TrimmedDescriptions(rows);
    forall i | 0 <= i < |ns| ensures ns[i] == names[i] {
      assert ns[i] == Trim(rows[i].field);
      assert rows[i].field == names[i];
    }
    forall i | 0 <= i < |ds| ensures ds[i] == descs[i] {
      assert ds[i] == Trim(rows[i].description);
      assert rows[i].description == descs[i];
    }
  }

  class DatasetForm {
    var fields: seq<FieldEntry>
    var size: string
    var loading: bool
    var dataset: Option<seq<JsObject>>
    var downloadUrl: Option<string>
    var showDownBut: bool

    /** The download flag is set exactly when a URL is held, and never while a request runs. */
    ghost predicate Valid()
      reads this
    {
      && (showDownBut <==> downloadUrl.Some?)
      && (loading ==> !showDownBut)
    }

    /** `downloadUrl && showDownBut`: whether the download button is rendered. */
    predicate DownloadShown()
      reads this
    {
      Truthy(downloadUrl) && showDownBut
    }

    /** The form as first rendered: one empty row and nothing to download. */
    constructor ()
      ensures Valid()
      ensures fields == [FieldEntry("", "")] && size == "" && !loading
      ensures dataset == None && downloadUrl == None && !showDownBut
    {
      fields := [FieldEntry("", "")];
      size := "";
      loading := false;
      dataset := None;
      downloadUrl := None;
      showDownBut := false;
    }

    /** "Add More" appends an empty row; it is disabled while loading. */
    method AddMore()
      requires Valid() && !loading
      modifies this`fields
      ensures Valid()
      ensures fields == old(fields) + [FieldEntry("", "")]
    {
      fields := fields + [FieldEntry("", "")];
    }

    /** The size box. */
    method SetSize(text: string)
      modifies this`size
      ensures size == text
    {
      size := text;
    }

    /** `handleInputChange`: the edited input of row `index` takes the new text; nothing else changes. */
    method InputChange(index: nat, key: FieldKey, value: string)
      requires index < |fields|
      modifies this`fields
      ensures |fields| == |old(fields)|
      ensures forall i :: 0 <= i < |fields| && i != index ==> fields[i] == old(fields)[i]
      ensures key == FieldName ==> fields[index] == old(fields)[index].(field := value)
      ensures key == DescriptionName ==> fields[index] == old(fields)[index].(description := value)
    {
      var entry := fields[index];
      var updated := if key == FieldName then entry.(field := value) else entry.(description := value);
      fields := fields[index := updated];
    }

    /** `handleSubmit` up to the request. `sizeNum` is `Number(size)`. A refused submission only
        alerts; an accepted one starts loading, hides the download and sends the request. */
    method Submit(sizeNum: JsNumber) returns (outcome: Result<DatasetRequest, FormError>)
      requires Valid() && !loading
      modifies this
      ensures Valid()
      ensures outcome == ValidateSubmission(sizeNum, old(fields))
      ensures fields == old(fields) && size == old(size) && dataset == old(dataset)
      ensures outcome.Err? ==> !loading && showDownBut == old(showDownBut) && downloadUrl == old(downloadUrl)
      ensures outcome.Ok? ==> loading && !showDownBut && downloadUrl == None
    {
      var checked := ValidateSubmission(sizeNum, fields);
      if checked.Ok? {
        loading := true;
        showDownBut := false;
        downloadUrl := None;
      }
      return checked;
    }

    /** The end of `handleSubmit`: a returned array is kept and offered for download; any failure
        alerts and leaves the download hidden. Loading always ends. */
    method Finish(response: GenerationResponse) returns (alert: Option<string>)
      requires Valid() && loading
      modifies this
      ensures Valid() && !loading
      ensures response.DatasetReturned? ==>
        && alert == None && dataset == Some(response.rows)
        && downloadUrl == Some(response.csvUrl) && showDownBut
      ensures response.GenerationFailed? ==>
        alert == Some(FailureAlert) && dataset == old(dataset) && downloadUrl == None && !showDownBut
      ensures fields == old(fields) && size == old(size)
    {
      if response.DatasetReturned? {
        dataset := Some(response.rows);
        downloadUrl := Some(response.csvUrl);
        showDownBut := true;
        alert := None;
      } else {
        alert := Some(FailureAlert);
      }
      loading := false;
    }

    /** `downloadFile`: the link followed, none without a URL. */
    method DownloadFile() returns (href: Option<string>)
      ensures href.None? <==> !Truthy(downloadUrl)
      ensures href.Some? ==> downloadUrl == href
    {
      if !Truthy(downloadUrl) {
        return None;
      }
      return downloadUrl;
    }
  }
}
