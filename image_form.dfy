/** The disease-from-image form (`DiesesFormImage.js`): checking a chosen file, the preview of
    an accepted one, and the report or error that a submission ends with. */
module ImageForm {
  import opened Js

  /** The largest accepted upload: ten mebibytes. */
  const MaxImageBytes: nat := 10 * 1024 * 1024

  const NoSelectionText := "Please upload an image first."
  const NoReportText := "No report returned."
  const FetchErrorText := "Error occurred while fetching data."

  /** Why a chosen file is refused. */
  datatype ImageProblem = NotAnImage | TooLarge

  /** How a submission ends: the report text (`data?.data`, absent when null or missing), or a
      failure with the server's message, absent when falsy. */
  datatype ReportResponse = Answered(report: Option<string>) | Failed(serverMessage: Option<string>)

  function ProblemText(p: ImageProblem): string {
    match p
    case NotAnImage => "Please select a valid image file."
    case TooLarge => "File is too large. Max 10MB."
  }

  /** The checks of `handleFileChange`, the type before the size. */
  function CheckImage(f: FileInfo): (r: Option<ImageProblem>)
    ensures r == Some(NotAnImage) <==> !StartsWith(f.mimeType, "image/")
    ensures r == Some(TooLarge) <==> StartsWith(f.mimeType, "image/") && f.size > MaxImageBytes
    ensures r == None <==> StartsWith(f.mimeType, "image/") && f.size <= MaxImageBytes
  {
    if !StartsWith(f.mimeType, "image/") then Some(NotAnImage)
    else if f.size > MaxImageBytes then Some(TooLarge)
    else None
  }

  /** An image of exactly ten mebibytes is accepted; one byte more is refused. */
  lemma SizeBoundary(name: string, mimeType: string)
    requires StartsWith(mimeType, "image/")
    ensures CheckImage(FileInfo(name, mimeType, 10485760)) == None
    ensures CheckImage(FileInfo(name, mimeType, 10485761)) == Some(TooLarge)
  {
  }

  /** A file that is not an image is refused as such, however large it is. */
  lemma TypeCheckedFirst(f: FileInfo)
    requires !StartsWith(f.mimeType, "image/") && f.size > MaxImageBytes
    ensures CheckImage(f) == Some(NotAnImage)
  {
  }

  class ImageReportForm {
    var selectedFile: Option<FileInfo>
    var previewUrl: string
    var loading: bool
    var responseData: string
    var errorMsg: string

    /** Only an accepted file is ever selected, and a preview exists only for a selection. */
    ghost predicate Valid()
      reads this
    {
      && (selectedFile.Some? ==> CheckImage(selectedFile.value) == None)
      && (previewUrl != "" ==> selectedFile.Some?)
    }

    constructor ()
      ensures Valid()
      ensures selectedFile == None && previewUrl == "" && !loading && responseData == "" && errorMsg == ""
    {
      selectedFile := None;
      previewUrl := "";
      loading := false;
      responseData := "";
      errorMsg := "";
    }

    /** `handleFileChange`: error, report, preview and selection are cleared first; a refused
        file leaves only its error; an accepted one is selected with `objectUrl` as its preview. */
    method FileChange(file: Option<FileInfo>, objectUrl: string)
      requires Valid()
      modifies this
      ensures Valid()
      ensures responseData == "" && loading == old(loading)
      ensures file.None? ==> errorMsg == "" && previewUrl == "" && selectedFile == None
      ensures file.Some? && CheckImage(file.value).Some? ==>
        errorMsg == ProblemText(CheckImage(file.value).value) && previewUrl == "" && selectedFile == None
      ensures file.Some? && CheckImage(file.value).None? ==>
        errorMsg == "" && previewUrl == objectUrl && selectedFile == file
    {
      errorMsg := "";
      responseData := "";
      previewUrl := "";
      selectedFile := None;
      if file.None? {
        return;
      }
      var problem := CheckImage(file.value);
      if problem.Some? {
        errorMsg := ProblemText(problem.value);
        return;
      }
      selectedFile := file;
      previewUrl := objectUrl;
    }

    /** `handleSubmit` up to the request, which carries the selected file. Without a selection
        only the error is set. The button is disabled while loading. */
    method Submit() returns (sent: Option<FileInfo>)
      requires Valid() && !loading
      modifies this
      ensures Valid()
      ensures sent == old(selectedFile)
      ensures sent.None? ==> errorMsg == NoSelectionText && !loading
      ensures sent.Some? ==> errorMsg == "" && loading
      ensures selectedFile == old(selectedFile) && previewUrl == old(previewUrl) && responseData == old(responseData)
    {
      if selectedFile.None? {
        errorMsg := NoSelectionText;
        return None;
      }
      loading := true;
      errorMsg := "";
      return selectedFile;
    }

    /** The end of `handleSubmit`: the report, or its default text when missing; or the server's
        message, or the default error. Loading always ends. */
    method Finish(response: ReportResponse)
      requires Valid() && loading
      modifies this
      ensures Valid() && !loading
      ensures response.Answered? ==> responseData == response.report.GetOr(NoReportText) && errorMsg == old(errorMsg)
      ensures response.Failed? ==>
        errorMsg == OrDefault(response.serverMessage, FetchErrorText) && responseData == old(responseData)
      ensures selectedFile == old(selectedFile) && previewUrl == old(previewUrl)
    {
      match response {
        case Answered(report) =>
          responseData := report.GetOr(NoReportText);
        case Failed(message) =>
          errorMsg := OrDefault(message, FetchErrorText);
      }
      loading := false;
    }
  }
}
