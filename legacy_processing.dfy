/**
 * The per-file pipeline of the older revision (`process_single_file` in
 * processing.py at the repository root), on the legacy Dropbox client. Its
 * last step deletes the original, and a failed delete is only logged. Its
 * `finally` removes the working files without guarding the removal, so an
 * exception there replaces whatever the run was raising.
 */
module LegacyProcessing {
  import opened Wrappers
  import opened Exceptions
  import opened Strings
  import opened LocalFiles
  import opened Collaborators
  import opened DropboxSdk
  import opened LegacyDbox
  import opened LegacyPdfUtils
  import opened Processing

  /** The settings the older pipeline reads. */
  datatype LegacySettings = LegacySettings(bufDir: string, destDir: string)

  datatype LegacyEnv = LegacyEnv(account: Account, tools: Toolchain, unlinkFault: string -> Option<Exc>, settings: LegacySettings)

  datatype LegacyWorld = LegacyWorld(
    local: set<string>,
    sdkCalls: seq<SdkCall>,
    externalCalls: seq<ExternalCall>,
    unlinked: seq<string>)

  function LegacySnapshot(client: LegacyDropboxClient, ext: Externals, buffer: LocalBuffer): LegacyWorld
    reads client, ext, buffer
  {
    LegacyWorld(buffer.files, client.trace, ext.calls, buffer.unlinked)
  }

  function LegacyEnvOf(client: LegacyDropboxClient, ext: Externals, buffer: LocalBuffer, settings: LegacySettings): LegacyEnv {
    LegacyEnv(client.account, ext.tools, buffer.unlinkFault, settings)
  }

  function LegacyLocalPath(s: LegacySettings, name: string): string {
    s.bufDir + "/" + name
  }

  function LegacyResultPath(s: LegacySettings, name: string): string {
    s.bufDir + "/" + ("recognized_" + name)
  }

  /** The header put before the text of page i. */
  function PagePrefix(i: nat): string {
    "--- Page " + Decimal(i + 1) + " ---\n"
  }

  /** Recognition as in the current revision, each text prefixed with its page header. */
  function LegacyRecognizeSpec(tools: Toolchain, pdf: string, n: nat): (Reply<seq<string>>, seq<ExternalCall>) {
    var (r, calls) := RecognizeSpec(tools, pdf, n);
    match r
    case Ok(texts) => (Ok(seq(|texts|, i requires 0 <= i < |texts| => PagePrefix(i) + texts[i])), calls)
    case Raised(e) => (Raised(e), calls)
  }

  method LegacyRecognizePages(ext: Externals, pdf: string, n: nat) returns (r: Reply<seq<string>>)
    modifies ext
    ensures r == LegacyRecognizeSpec(ext.tools, pdf, n).0
    ensures ext.calls == old(ext.calls) + LegacyRecognizeSpec(ext.tools, pdf, n).1
  {
    ghost var replies := PageReplies(ext.tools, pdf, n);
    var texts: seq<string> := [];
    var i := 0;
    while i < n
      invariant i <= n
      invariant forall j :: 0 <= j < i ==> !IsRaised(replies[j])
      invariant texts == seq(i, j requires 0 <= j < i => PagePrefix(j) + replies[j].value)
      invariant ext.calls == old(ext.calls) + RecognizeCalls(pdf, i)
    {
      var reply := ext.Recognize(PageImage(pdf, i));
      assert RecognizeCalls(pdf, i + 1) == RecognizeCalls(pdf, i) + [Recognize(PageImage(pdf, i))];
      assert replies[i] == reply;
      if reply.Raised? {
        assert IsRaised(replies[i]);
        return Raised(ClassifyRecognitionError(reply.error));
      }
      texts := texts + [PagePrefix(i) + reply.value];
      i := i + 1;
    }
    assert FirstFailingPage(ext.tools, pdf, n) == n;
    ghost var plain := seq(n, j requires 0 <= j < n => replies[j].value);
    assert texts == seq(|plain|, j requires 0 <= j < |plain| => PagePrefix(j) + plain[j]);
    r := Ok(texts);
  }

  /** An `except ApiError` clause that raises TransientError; other exceptions pass. */
  function ApiErrorIsTransient(e: Exc): (r: Exc)
    ensures r != DropboxApiError
    ensures r != e ==> e == DropboxApiError && r == TransientError
  {
    if e == DropboxApiError then TransientError else e
  }

  /** The rendering step: a missing font fails before any build. */
  function RenderSpec(env: LegacyEnv, w: LegacyWorld, fullText: string, resultPdf: string): (Option<Exc>, LegacyWorld) {
    if !env.tools.fonts.regular then (Some(FileNotFoundError), w)
    else
      var built := env.tools.build(resultPdf, LineParagraphs(fullText));
      (built, w.(externalCalls := w.externalCalls + [Build(resultPdf, LineParagraphs(fullText))],
                 local := if built.None? then w.local + {resultPdf} else w.local))
  }

  /** Upload and delete of the original (steps 5 and 6). */
  function PublishSpec(env: LegacyEnv, w: LegacyWorld, entry: Metadata, resultPdf: string): (Outcome, LegacyWorld) {
    var dest := env.settings.destDir + "/" + Basename(resultPdf);
    if resultPdf !in w.local then (Failed(FileNotFoundError), w)
    else
      var w1 := w.(sdkCalls := w.sdkCalls + [Upload(resultPdf, dest)]);
      match env.account.fault(Upload(resultPdf, dest))
      case Some(e) => (Failed(ApiErrorIsTransient(e)), w1)
      case None =>
        var w2 := w1.(sdkCalls := w1.sdkCalls + [DeleteV2(entry.pathDisplay)]);
        match env.account.fault(DeleteV2(entry.pathDisplay))
        case Some(e) => if e == DropboxApiError then (Success, w2) else (Failed(e), w2)
        case None => (Success, w2)
  }

  /** The body of the `try`: steps 1 to 6. */
  function LegacyAttemptSpec(env: LegacyEnv, w: LegacyWorld, entry: Metadata): (Outcome, LegacyWorld) {
    var localPdf := LegacyLocalPath(env.settings, entry.name);
    var resultPdf := LegacyResultPath(env.settings, entry.name);
    var download := env.account.fault(DownloadToFile(localPdf, entry.pathDisplay));
    var w1 := w.(sdkCalls := w.sdkCalls + [DownloadToFile(localPdf, entry.pathDisplay)],
                 local := if download.None? then w.local + {localPdf} else w.local);
    if download.Some? then (Failed(ApiErrorIsTransient(download.value)), w1)
    else
      var w2 := w1.(externalCalls := w1.externalCalls + [ConvertFromPath(localPdf)]);
      var pages := env.tools.convert(localPdf);
      if pages.Raised? || pages.value == 0 then (Failed(PermanentError), w2)
      else
        var (texts, calls) := LegacyRecognizeSpec(env.tools, localPdf, pages.value);
        var w3 := w2.(externalCalls := w2.externalCalls + calls);
        if texts.Raised? then (Failed(texts.error), w3)
        else
          var (renderErr, w4) := RenderSpec(env, w3, Join(texts.value, "\n\n"), resultPdf);
          if renderErr.Some? then (Failed(renderErr.value), w4)
          else PublishSpec(env, w4, entry, resultPdf)
  }

  /**
   * One unguarded removal in the `finally`: an exception from `os.remove`
   * replaces the outcome, and the rest of the block is skipped.
   */
  function RemoveIfExists(fault: string -> Option<Exc>, r: (Outcome, LegacyWorld, bool), path: string)
    : (Outcome, LegacyWorld, bool)
  {
    var (outcome, w, stopped) := r;
    if stopped || path !in w.local then r
    else
      var w1 := w.(unlinked := w.unlinked + [path]);
      match fault(path)
      case Some(e) => (Failed(e), w1, true)
      case None => (outcome, w1.(local := w.local - {path}), false)
  }

  function LegacyPipelineSpec(env: LegacyEnv, w: LegacyWorld, entry: Metadata): (Outcome, LegacyWorld) {
    var (outcome, w1) := LegacyAttemptSpec(env, w, entry);
    var r1 := RemoveIfExists(env.unlinkFault, (outcome, w1, false), LegacyLocalPath(env.settings, entry.name));
    var r2 := RemoveIfExists(env.unlinkFault, r1, LegacyResultPath(env.settings, entry.name));
    (r2.0, r2.1)
  }

  method LegacyProcessSingleFile(client: LegacyDropboxClient, ext: Externals, buffer: LocalBuffer,
                                 settings: LegacySettings, entry: Metadata)
    returns (outcome: Outcome)
    modifies client, ext, buffer
    ensures (outcome, LegacySnapshot(client, ext, buffer))
         == LegacyPipelineSpec(LegacyEnvOf(client, ext, buffer, settings), old(LegacySnapshot(client, ext, buffer)), entry)
  {
    ghost var env := LegacyEnvOf(client, ext, buffer, settings);
    var localPdf := LegacyLocalPath(settings, entry.name);
    var resultPdf := LegacyResultPath(settings, entry.name);
    outcome := Success;
    var downloadErr := client.DownloadFile(entry.pathDisplay, localPdf, buffer);
    if downloadErr.Some? {
      outcome := Failed(ApiErrorIsTransient(downloadErr.value));
    } else {
      var pages := ext.ConvertFromPath(localPdf);
      if pages.Raised? || pages.value == 0 {
        outcome := Failed(PermanentError);
      } else {
        var texts := LegacyRecognizePages(ext, localPdf, pages.value);
        if texts.Raised? {
          outcome := Failed(texts.error);
        } else {
          var renderErr := TxtToPdfLineByLine(Join(texts.value, "\n\n"), resultPdf, ext, buffer);
          if renderErr.Some? {
            outcome := Failed(renderErr.value);
          } else {
            var uploadErr := client.UploadFile(resultPdf, settings.destDir + "/" + Basename(resultPdf), buffer);
            if uploadErr.Some? {
              outcome := Failed(ApiErrorIsTransient(uploadErr.value));
            } else {
              var deleteErr := client.DeleteFile(entry.pathDisplay);
              if deleteErr.Some? && deleteErr.value != DropboxApiError {
                outcome := Failed(deleteErr.value);
              }
            }
          }
        }
      }
    }
    assert (outcome, LegacySnapshot(client, ext, buffer)) == LegacyAttemptSpec(env, old(LegacySnapshot(client, ext, buffer)), entry);
    // finally: an exception from a removal propagates and ends the block
    if buffer.IsFile(localPdf) {
      var err := buffer.Unlink(localPdf);
      if err.Some? {
        outcome := Failed(err.value);
        return;
      }
    }
    if buffer.IsFile(resultPdf) {
      var err := buffer.Unlink(resultPdf);
      if err.Some? {
        outcome := Failed(err.value);
      }
    }
  }
}
