/** The upload page (frontend/src/pages/Home.jsx): a codebase arrives as a
    ZIP file or as a GitHub URL, is checked on the client, and is sent to
    the backend; the identifier the backend returns is stored and the
    question page opens. */
module Home {
  import opened Js
  import Constants
  import Helpers
  import Api
  import Browser

  /** The parts of a dropped `File` the page looks at: `file.size` in
      bytes and `file.type`. */
  datatype ZipFile = ZipFile(size: int, mimeType: string)

  /** The checks of `handleFileAccepted`, in order: size, then type. None
      means the file may be sent. */
  function ValidateZip(f: ZipFile): Option<string> {
    if f.size > Constants.MaxUploadSize then Some(Constants.FileTooLarge)
    else if f.mimeType !in Constants.AllowedTypes then Some(Constants.InvalidFileType)
    else None
  }

  /** The check of `handleGithubSubmit`. */
  function ValidateGithub(url: string): Option<string> {
    if !Helpers.IsValidGithubUrl(url) then Some(Constants.GithubInvalid) else None
  }

  /** `GithubForm.handleSubmit`: the trimmed URL, unless it is empty. */
  function GithubFormSubmit(url: string): Option<string> {
    var t := Trim(url);
    if t != "" then Some(t) else None
  }

  /** `ZipUploader.onDrop`: the first accepted file, if any. */
  function OnDrop(acceptedFiles: seq<ZipFile>): Option<ZipFile> {
    if |acceptedFiles| > 0 then Some(acceptedFiles[0]) else None
  }

  /** What is being uploaded. */
  datatype Source = ZipSource(file: ZipFile) | GithubSource(url: string)

  /** How the upload request settled: the backend's `codebaseId`, or the
      thrown error's `message` (possibly missing). */
  datatype UploadOutcome = Uploaded(codebaseId: string) | UploadFailed(message: Option<string>)

  /** The text shown when a failed upload carries no message. */
  function FailureFallback(src: Source): string {
    match src
    case ZipSource(_) => Constants.UploadFailed
    case GithubSource(_) => "Failed to clone repository"
  }

  /** The page's state: `loading` and `error` (empty when none). */
  datatype Gate = Gate(loading: bool, error: string)

  const InitialGate: Gate := Gate(false, "")

  /** The check a source must pass before it is sent. */
  function Validate(src: Source): Option<string> {
    match src
    case ZipSource(f) => ValidateZip(f)
    case GithubSource(url) => ValidateGithub(url)
  }

  /** A handler up to its `await`: a rejected source only sets the error;
      an accepted one starts the upload and clears the error. Whatever is
      already pending does not matter. */
  function Start(g: Gate, src: Source): Gate {
    match Validate(src)
    case Some(e) => g.(error := e)
    case None => Gate(true, "")
  }

  /** A handler after its `await`: a failure shows its message or the
      source's fallback, and the pending flag is cleared either way. */
  function Finish(g: Gate, src: Source, o: UploadOutcome): Gate {
    match o
    case Uploaded(_) => g.(loading := false)
    case UploadFailed(msg) => Gate(false, OrDefault(msg, FailureFallback(src)))
  }

  // ---------------------------------------------------------------------
  // Validation

  /** A file passes exactly when it is at most 7 MiB and of an allowed
      type. Size is checked first: an oversized file is reported as too
      large whatever its type, and a file of exactly the limit passes the
      size check. */
  lemma ValidateZipSpec(f: ZipFile)
    ensures ValidateZip(f).None? <==> f.size <= Constants.MaxUploadSize && f.mimeType in Constants.AllowedTypes
    ensures f.size > Constants.MaxUploadSize ==> ValidateZip(f) == Some(Constants.FileTooLarge)
    ensures f.size <= Constants.MaxUploadSize && f.mimeType !in Constants.AllowedTypes ==>
      ValidateZip(f) == Some(Constants.InvalidFileType)
    ensures f.size == Constants.MaxUploadSize ==> ValidateZip(f) != Some(Constants.FileTooLarge)
  {
  }

  /** An 8 MiB archive is too large; a 1 KiB one of either ZIP type is
      accepted; a 1 KiB tarball is refused for its type. */
  lemma ValidateZipExamples()
    ensures ValidateZip(ZipFile(8 * 1024 * 1024, "application/zip")) == Some(Constants.FileTooLarge)
    ensures ValidateZip(ZipFile(8 * 1024 * 1024, "application/x-tar")) == Some(Constants.FileTooLarge)
    ensures ValidateZip(ZipFile(1024, "application/zip")).None?
    ensures ValidateZip(ZipFile(1024, "application/x-zip-compressed")).None?
    ensures ValidateZip(ZipFile(1024, "application/x-tar")) == Some(Constants.InvalidFileType)
  {
    assert "application/x-tar" != Constants.AllowedTypes[0];
    assert "application/x-tar" != Constants.AllowedTypes[1];
  }

  /** The form hands over a URL exactly when it has something besides
      white space, and then hands over that text without the white space
      around it. */
  lemma GithubFormSubmitSpec(url: string)
    ensures GithubFormSubmit(url).None? <==> AllWhiteSpace(url)
    ensures GithubFormSubmit(url).Some? ==>
      var t := GithubFormSubmit(url).value;
      t == Trim(url) && !IsWhiteSpace(t[0]) && !IsWhiteSpace(t[|t| - 1])
  {
    TrimEmptyIff(url);
    var i := TrimIsInfix(url);
  }

  /** A repository URL typed with white space around it is trimmed by the
      form and then accepted by the page's check. */
  lemma GithubUrlWithPaddingAccepted(before: string, g: Helpers.GithubUrl, after: string)
    requires AllWhiteSpace(before) && AllWhiteSpace(after) && Helpers.WellFormed(g)
    ensures GithubFormSubmit(before + Helpers.Render(g) + after) == Some(Helpers.Render(g))
    ensures ValidateGithub(Helpers.Render(g)).None?
  {
    var u := Helpers.Render(g);
    Helpers.RenderEnds(g);
    TrimPadded(before, u, after);
    Helpers.ParseRender(g);
  }

  /** Only the first dropped file is handled, and an empty drop does
      nothing. */
  lemma OnDropSpec(acceptedFiles: seq<ZipFile>)
    ensures OnDrop(acceptedFiles).None? <==> acceptedFiles == []
    ensures acceptedFiles != [] ==> OnDrop(acceptedFiles) == Some(acceptedFiles[0])
  {
  }

  // ---------------------------------------------------------------------
  // The handlers

  /** A rejected source reaches no upload call: only the error changes,
      to the check's message, and `loading` keeps its value. An accepted
      one is sent with `loading` set and the error cleared, even if an
      upload is already pending. */
  lemma StartSpec(g: Gate, src: Source)
    ensures Validate(src).Some? ==> Start(g, src) == Gate(g.loading, Validate(src).value)
    ensures Validate(src).None? ==> Start(g, src) == Gate(true, "")
    ensures src.ZipSource? && src.file.size > Constants.MaxUploadSize ==>
      Start(g, src).error == Constants.FileTooLarge && Start(g, src).loading == g.loading
    ensures src.GithubSource? && !Helpers.IsValidGithubUrl(src.url) ==>
      Start(g, src).error == Constants.GithubInvalid && Start(g, src).loading == g.loading
  {
  }

  /** After an upload settles nothing is pending. A failure shows the
      error's own message or the source's fallback; since the request
      layer always throws a non-empty message, a failure that went through
      it shows that message and never the fallback. */
  lemma FinishSpec(g: Gate, src: Source, o: UploadOutcome, e: Api.RequestError)
    ensures !Finish(g, src, o).loading
    ensures o.Uploaded? ==> Finish(g, src, o).error == g.error
    ensures o.UploadFailed? && (o.message.None? || o.message.value == "") ==>
      Finish(g, src, o).error == FailureFallback(src)
    ensures o.UploadFailed? && o.message.Some? && o.message.value != "" ==>
      Finish(g, src, o).error == o.message.value
    ensures Finish(g, src, UploadFailed(Some(Api.InterceptError(e)))).error == Api.InterceptError(e)
  {
  }

  // ---------------------------------------------------------------------
  // The component

  class Page {
    var loading: bool
    var error: string
    const browser: Browser.Env

    function State(): Gate
      reads this
    {
      Gate(loading, error)
    }

    constructor(browser: Browser.Env)
      ensures State() == InitialGate && this.browser == browser
    {
      loading := false;
      error := "";
      this.browser := browser;
    }

    /** `handleFileAccepted` up to its `await`; returns the file it sends. */
    method HandleFileAccepted(file: ZipFile) returns (upload: Option<ZipFile>)
      modifies this
      ensures State() == Start(old(State()), ZipSource(file))
      ensures upload.Some? <==> ValidateZip(file).None?
      ensures upload.Some? ==> upload.value == file
    {
      if file.size > Constants.MaxUploadSize {
        error := Constants.FileTooLarge;
        return None;
      }
      if file.mimeType !in Constants.AllowedTypes {
        error := Constants.InvalidFileType;
        return None;
      }
      loading := true;
      error := "";
      upload := Some(file);
    }

    /** `handleGithubSubmit` up to its `await`; returns the URL it sends. */
    method HandleGithubSubmit(url: string) returns (upload: Option<string>)
      modifies this
      ensures State() == Start(old(State()), GithubSource(url))
      ensures upload.Some? <==> Helpers.IsValidGithubUrl(url)
      ensures upload.Some? ==> upload.value == url
    {
      if !Helpers.IsValidGithubUrl(url) {
        error := Constants.GithubInvalid;
        return None;
      }
      loading := true;
      error := "";
      upload := Some(url);
    }

    /** Either handler after its `await`: on success the identifier is
        stored and the question page opens; on failure the error is shown
        and the browser is left alone. */
    method FinishUpload(src: Source, outcome: UploadOutcome)
      modifies this, browser
      ensures State() == Finish(old(State()), src, outcome)
      ensures outcome.Uploaded? ==>
        browser.storedCodebaseId == Some(outcome.codebaseId) && browser.path == "/qa"
      ensures outcome.UploadFailed? ==>
        browser.storedCodebaseId == old(browser.storedCodebaseId) && browser.path == old(browser.path)
    {
      if outcome.Uploaded? {
        browser.storedCodebaseId := Some(outcome.codebaseId);
        browser.path := "/qa";
      } else {
        var msg := outcome.message;
        error := if msg.Some? && msg.value != "" then msg.value else FailureFallback(src);
      }
      loading := false;
    }
  }
}
