/**
 * The per-file pipeline of the current revision (`process_single_file`):
 * download, rasterise, recognise each page, render, upload, move the original
 * to the processed folder, and in every case clean up the two local files.
 * Each phase maps its failures to TransientError or PermanentError, or lets
 * them escape unchanged.
 */
module Processing {
  import opened Wrappers
  import opened Exceptions
  import opened Strings
  import opened Dto
  import opened Storage
  import opened LocalFiles
  import opened Collaborators
  import opened PdfUtils

  /**
   * The settings the pipeline reads. The Settings class defines no
   * PROCESSED_FOLDER; `processedFolder` is None for that configuration, and
   * reading it then raises AttributeError.
   */
  datatype PipelineSettings = PipelineSettings(bufDir: string, dstFolder: string, processedFolder: Option<string>)

  /** Everything the run cannot influence: the backend, the collaborators, unlink failures, the settings. */
  datatype Env = Env(backend: Backend, tools: Toolchain, unlinkFault: string -> Option<Exc>, settings: PipelineSettings)

  /** What the run can change: the remote store, the local files, and the calls made. */
  datatype World = World(
    store: Store,
    local: set<string>,
    storageCalls: seq<StorageCall>,
    externalCalls: seq<ExternalCall>,
    unlinked: seq<string>)

  function Snapshot(storage: StorageClient, ext: Externals, buffer: LocalBuffer): World
    reads storage, ext, buffer
  {
    World(storage.store, buffer.files, storage.trace, ext.calls, buffer.unlinked)
  }

  function EnvOf(storage: StorageClient, ext: Externals, buffer: LocalBuffer, settings: PipelineSettings): Env {
    Env(storage.backend, ext.tools, buffer.unlinkFault, settings)
  }

  /** `LOCAL_BUF_DIR / name` */
  function LocalPdfPath(s: PipelineSettings, name: string): string {
    s.bufDir + "/" + name
  }

  /** `LOCAL_BUF_DIR / f"recognized_{name}"` */
  function ResultPdfPath(s: PipelineSettings, name: string): string {
    s.bufDir + "/" + ("recognized_" + name)
  }

  // ---------------------------------------------------------------- phase 1

  /**
   * `_download_and_convert`: any download exception becomes TransientError;
   * any conversion exception, and a conversion to zero pages, PermanentError.
   */
  function DownloadAndConvertSpec(env: Env, w: World, fileId: string, localPdf: string): (r: (Reply<nat>, World))
    ensures r.0.Raised? ==> r.0.error in {TransientError, PermanentError}
    ensures r.0.Ok? ==> r.0.value > 0
  {
    var d := Download(env.backend, w.store, w.local, fileId, localPdf);
    var w1 := w.(local := d.1, storageCalls := w.storageCalls + [DownloadFile(fileId, localPdf)]);
    if d.0.Some? then (Raised(TransientError), w1)
    else
      var w2 := w1.(externalCalls := w1.externalCalls + [ConvertFromPath(localPdf)]);
      match env.tools.convert(localPdf)
      case Raised(_) => (Raised(PermanentError), w2)
      case Ok(n) => if n == 0 then (Raised(PermanentError), w2) else (Ok(n), w2)
  }

  method DownloadAndConvert(storage: StorageClient, ext: Externals, buffer: LocalBuffer,
                            settings: PipelineSettings, fileId: string, localPdf: string)
    returns (r: Reply<nat>)
    modifies storage, ext, buffer
    ensures (r, Snapshot(storage, ext, buffer))
         == DownloadAndConvertSpec(EnvOf(storage, ext, buffer, settings), old(Snapshot(storage, ext, buffer)), fileId, localPdf)
  {
    var err := storage.DownloadFile(fileId, localPdf, buffer);
    if err.Some? {
      return Raised(TransientError);
    }
    var pages := ext.ConvertFromPath(localPdf);
    match pages {
      case Raised(_) =>
        r := Raised(PermanentError);
      case Ok(n) =>
        if n == 0 {
          r := Raised(PermanentError);
        } else {
          r := Ok(n);
        }
    }
  }

  // ---------------------------------------------------------------- phase 2

  /**
   * The recognition error mapping: connection and rate-limit errors become
   * TransientError, bad-request and authentication errors PermanentError, and
   * anything else escapes unchanged.
   */
  function ClassifyRecognitionError(e: Exc): (r: Exc)
    ensures e in {ApiConnectionError, RateLimitError} ==> r == TransientError
    ensures e in {BadRequestError, AuthenticationError} ==> r == PermanentError
    ensures e !in {ApiConnectionError, RateLimitError, BadRequestError, AuthenticationError} ==> r == e
  {
    match e
    case ApiConnectionError => TransientError
    case RateLimitError => TransientError
    case BadRequestError => PermanentError
    case AuthenticationError => PermanentError
    case _ => e
  }

  function PageReplies(tools: Toolchain, pdf: string, n: nat): seq<Reply<string>> {
    seq(n, i requires 0 <= i < n => tools.recognize(PageImage(pdf, i)))
  }

  function RecognizeCalls(pdf: string, m: nat): seq<ExternalCall> {
    seq(m, i requires 0 <= i < m => Recognize(PageImage(pdf, i)))
  }

  predicate IsRaised(r: Reply<string>) {
    r.Raised?
  }

  /** The index of the first page whose recognition raises, or n. */
  function FirstFailingPage(tools: Toolchain, pdf: string, n: nat): nat {
    FirstWhere(PageReplies(tools, pdf, n), IsRaised)
  }

  /**
   * `_recognize_pages`: pages are recognised in order until the first failure.
   * Gives the texts or the classified error, and the recognition calls made.
   */
  function RecognizeSpec(tools: Toolchain, pdf: string, n: nat): (Reply<seq<string>>, seq<ExternalCall>) {
    var replies := PageReplies(tools, pdf, n);
    var k := FirstFailingPage(tools, pdf, n);
    if k == n then
      (Ok(seq(n, i requires 0 <= i < n => replies[i].value)), RecognizeCalls(pdf, n))
    else
      (Raised(ClassifyRecognitionError(replies[k].error)), RecognizeCalls(pdf, k + 1))
  }

  method RecognizePages(ext: Externals, pdf: string, n: nat) returns (r: Reply<seq<string>>)
    modifies ext
    ensures r == RecognizeSpec(ext.tools, pdf, n).0
    ensures ext.calls == old(ext.calls) + RecognizeSpec(ext.tools, pdf, n).1
  {
    ghost var replies := PageReplies(ext.tools, pdf, n);
    var texts: seq<string> := [];
    var i := 0;
    while i < n
      invariant i <= n
      invariant forall j :: 0 <= j < i ==> !IsRaised(replies[j])
      invariant texts == seq(i, j requires 0 <= j < i => replies[j].value)
      invariant ext.calls == old(ext.calls) + RecognizeCalls(pdf, i)
    {
      var reply := ext.Recognize(PageImage(pdf, i));
      assert RecognizeCalls(pdf, i + 1) == RecognizeCalls(pdf, i) + [Recognize(PageImage(pdf, i))];
      assert replies[i] == reply;
      if reply.Raised? {
        assert IsRaised(replies[i]);
        return Raised(ClassifyRecognitionError(reply.error));
      }
      texts := texts + [reply.value];
      i := i + 1;
    }
    r := Ok(texts);
  }

  // ---------------------------------------------------------------- phase 3

  /**
   * `_create_and_upload_pdf`: a rendering failure escapes unchanged; the PDF
   * is uploaded to DST_FOLDER under the result path's file name, and any
   * upload exception becomes TransientError.
   */
  function CreateAndUploadSpec(env: Env, w: World, texts: seq<string>, resultPdf: string): (r: (Option<Exc>, World))
    ensures r.1.unlinked == w.unlinked
  {
    var flowables := Flowables(texts, FontNameFor(env.tools.fonts));
    var built := env.tools.build(resultPdf, flowables);
    var w1 := w.(externalCalls := w.externalCalls + [Build(resultPdf, flowables)],
                 local := if built.None? then w.local + {resultPdf} else w.local);
    if built.Some? then (built, w1)
    else
      var call := UploadFile(resultPdf, env.settings.dstFolder, Basename(resultPdf));
      var u := Upload(env.backend, w1.store, w1.local, resultPdf, env.settings.dstFolder, Basename(resultPdf));
      (if u.0.Some? then Some(TransientError) else None,
       w1.(store := u.1, storageCalls := w1.storageCalls + [call]))
  }

  method CreateAndUploadPdf(storage: StorageClient, ext: Externals, buffer: LocalBuffer,
                            settings: PipelineSettings, texts: seq<string>, resultPdf: string)
    returns (err: Option<Exc>)
    modifies storage, ext, buffer
    ensures (err, Snapshot(storage, ext, buffer))
         == CreateAndUploadSpec(EnvOf(storage, ext, buffer, settings), old(Snapshot(storage, ext, buffer)), texts, resultPdf)
  {
    err := CreateReflowedPdf(texts, resultPdf, ext, buffer);
    if err.Some? {
      return;
    }
    var uploadErr := storage.UploadFile(resultPdf, settings.dstFolder, Basename(resultPdf), buffer);
    if uploadErr.Some? {
      err := Some(TransientError);
    }
  }

  // ---------------------------------------------------------------- phase 4

  /**
   * Moving the original to PROCESSED_FOLDER. Any exception, including the
   * AttributeError of reading an undefined setting, becomes TransientError.
   */
  function MoveOriginalSpec(env: Env, w: World, fileId: string): (r: (Option<Exc>, World))
    ensures r.0.Some? ==> r.0 == Some(TransientError)
    ensures env.settings.processedFolder.None? ==> r == (Some(TransientError), w)
  {
    match env.settings.processedFolder
    case None => (Some(TransientError), w)
    case Some(folder) =>
      var m := Move(env.backend, w.store, fileId, folder);
      (if m.0.Some? then Some(TransientError) else None,
       w.(store := m.1, storageCalls := w.storageCalls + [MoveFile(fileId, folder)]))
  }

  // ---------------------------------------------------------------- phase 5

  /**
   * `_cleanup_local_files`: each path that is a file is unlinked, and a failed
   * unlink is swallowed. Gives the local files left and the unlink attempts.
   */
  function CleanupSpec(fault: string -> Option<Exc>, local: set<string>, unlinked: seq<string>, paths: seq<string>)
    : (r: (set<string>, seq<string>))
    ensures r.0 <= local
  {
    if paths == [] then (local, unlinked)
    else
      var (l, u) := CleanupSpec(fault, local, unlinked, paths[..|paths| - 1]);
      var p := paths[|paths| - 1];
      if p !in l then (l, u)
      else (if fault(p).None? then l - {p} else l, u + [p])
  }

  method CleanupLocalFiles(buffer: LocalBuffer, paths: seq<string>)
    modifies buffer
    ensures (buffer.files, buffer.unlinked) == CleanupSpec(buffer.unlinkFault, old(buffer.files), old(buffer.unlinked), paths)
  {
    var i := 0;
    while i < |paths|
      invariant i <= |paths|
      invariant (buffer.files, buffer.unlinked) == CleanupSpec(buffer.unlinkFault, old(buffer.files), old(buffer.unlinked), paths[..i])
    {
      assert paths[..i + 1][..i] == paths[..i];
      if buffer.IsFile(paths[i]) {
        var _ := buffer.Unlink(paths[i]);
      }
      i := i + 1;
    }
    assert paths[..i] == paths;
  }

  function CleanupWorld(env: Env, w: World, entry: FileMetadata): World {
    var paths := [LocalPdfPath(env.settings, entry.name), ResultPdfPath(env.settings, entry.name)];
    var (local, unlinked) := CleanupSpec(env.unlinkFault, w.local, w.unlinked, paths);
    w.(local := local, unlinked := unlinked)
  }

  // ---------------------------------------------------------------- the whole run

  /** The body of the `try`: phases 1 to 4, stopping at the first exception. */
  function AttemptSpec(env: Env, w: World, entry: FileMetadata): (r: (Outcome, World))
    ensures w.local <= r.1.local <= w.local + {LocalPdfPath(env.settings, entry.name), ResultPdfPath(env.settings, entry.name)}
    ensures r.1.unlinked == w.unlinked
  {
    var localPdf := LocalPdfPath(env.settings, entry.name);
    var resultPdf := ResultPdfPath(env.settings, entry.name);
    var (pages, w1) := DownloadAndConvertSpec(env, w, entry.id, localPdf);
    if pages.Raised? then (Failed(pages.error), w1)
    else
      var (texts, calls) := RecognizeSpec(env.tools, localPdf, pages.value);
      var w2 := w1.(externalCalls := w1.externalCalls + calls);
      if texts.Raised? then (Failed(texts.error), w2)
      else
        var (uploadErr, w3) := CreateAndUploadSpec(env, w2, texts.value, resultPdf);
        if uploadErr.Some? then (Failed(uploadErr.value), w3)
        else
          var (moveErr, w4) := MoveOriginalSpec(env, w3, entry.id);
          if moveErr.Some? then (Failed(moveErr.value), w4) else (Success, w4)
  }

  /** `process_single_file`: the attempt, then (in the `finally`) the cleanup of both local paths. */
  function PipelineSpec(env: Env, w: World, entry: FileMetadata): (Outcome, World) {
    var (outcome, w1) := AttemptSpec(env, w, entry);
    (outcome, CleanupWorld(env, w1, entry))
  }

  method ProcessSingleFile(storage: StorageClient, ext: Externals, buffer: LocalBuffer,
                           settings: PipelineSettings, entry: FileMetadata)
    returns (outcome: Outcome)
    modifies storage, ext, buffer
    ensures (outcome, Snapshot(storage, ext, buffer))
         == PipelineSpec(EnvOf(storage, ext, buffer, settings), old(Snapshot(storage, ext, buffer)), entry)
  {
    ghost var env := EnvOf(storage, ext, buffer, settings);
    var localPdf := LocalPdfPath(settings, entry.name);
    var resultPdf := ResultPdfPath(settings, entry.name);
    outcome := Success;
    var pages := DownloadAndConvert(storage, ext, buffer, settings, entry.id, localPdf);
    if pages.Raised? {
      outcome := Failed(pages.error);
    } else {
      var texts := RecognizePages(ext, localPdf, pages.value);
      if texts.Raised? {
        outcome := Failed(texts.error);
      } else {
        var uploadErr := CreateAndUploadPdf(storage, ext, buffer, settings, texts.value, resultPdf);
        if uploadErr.Some? {
          outcome := Failed(uploadErr.value);
        } else {
          match settings.processedFolder {
            case None =>
              outcome := Failed(TransientError);
            case Some(folder) =>
              var moveErr := storage.MoveFile(entry.id, folder);
              if moveErr.Some? {
                outcome := Failed(TransientError);
              }
          }
        }
      }
    }
    assert (outcome, Snapshot(storage, ext, buffer)) == AttemptSpec(env, old(Snapshot(storage, ext, buffer)), entry);
    CleanupLocalFiles(buffer, [localPdf, resultPdf]);
  }
}
