/** What the current pipeline promises, proved about its specification. */
module ProcessingProperties {
  import opened Wrappers
  import opened Exceptions
  import opened Strings
  import opened Dto
  import opened Storage
  import opened Collaborators
  import opened PdfUtils
  import opened Processing

  function Local(env: Env, entry: FileMetadata): string {
    LocalPdfPath(env.settings, entry.name)
  }

  function Result(env: Env, entry: FileMetadata): string {
    ResultPdfPath(env.settings, entry.name)
  }

  predicate DownloadSucceeds(env: Env, w: World, entry: FileMetadata) {
    Download(env.backend, w.store, w.local, entry.id, Local(env, entry)).0.None?
  }

  predicate AllPagesRecognised(tools: Toolchain, pdf: string, n: nat) {
    forall i :: 0 <= i < n ==> tools.recognize(PageImage(pdf, i)).Ok?
  }

  function PageTexts(tools: Toolchain, pdf: string, n: nat): seq<string>
    requires AllPagesRecognised(tools, pdf, n)
  {
    seq(n, i requires 0 <= i < n => tools.recognize(PageImage(pdf, i)).value)
  }

  /** Download, rasterisation into n > 0 pages and recognition of every page succeed. */
  predicate ReachesRender(env: Env, w: World, entry: FileMetadata, n: nat) {
    && DownloadSucceeds(env, w, entry)
    && env.tools.convert(Local(env, entry)) == Ok(n) && n > 0
    && AllPagesRecognised(env.tools, Local(env, entry), n)
  }

  function ResultFlowables(env: Env, entry: FileMetadata, n: nat): seq<Flowable>
    requires AllPagesRecognised(env.tools, Local(env, entry), n)
  {
    Flowables(PageTexts(env.tools, Local(env, entry), n), FontNameFor(env.tools.fonts))
  }

  /** The upload the pipeline makes once the result PDF is rendered. */
  function ResultUpload(env: Env, w: World, entry: FileMetadata): (Option<Exc>, Store) {
    Upload(env.backend, w.store, w.local + {Local(env, entry)} + {Result(env, entry)},
           Result(env, entry), env.settings.dstFolder, Basename(Result(env, entry)))
  }

  /** The result file is uploaded under "recognized_" + the original name. */
  lemma ResultFileName(env: Env, entry: FileMetadata)
    requires '/' !in entry.name
    ensures Basename(Result(env, entry)) == "recognized_" + entry.name
  {
    BasenameOfChild(env.settings.bufDir, "recognized_" + entry.name);
  }

  /** Any download failure is TransientError, and no other storage or external call follows. */
  lemma DownloadFailureIsTransient(env: Env, w: World, entry: FileMetadata)
    requires !DownloadSucceeds(env, w, entry)
    ensures var (outcome, w') := PipelineSpec(env, w, entry);
            && outcome == Failed(TransientError)
            && w'.storageCalls == w.storageCalls + [DownloadFile(entry.id, Local(env, entry))]
            && w'.externalCalls == w.externalCalls
            && w'.store == w.store
  {
  }

  /** A conversion that raises, or yields no page, is PermanentError; nothing is recognised, rendered or uploaded. */
  lemma ConversionFailureIsPermanent(env: Env, w: World, entry: FileMetadata)
    requires DownloadSucceeds(env, w, entry)
    requires env.tools.convert(Local(env, entry)).Raised? || env.tools.convert(Local(env, entry)) == Ok(0)
    ensures var (outcome, w') := PipelineSpec(env, w, entry);
            && outcome == Failed(PermanentError)
            && w'.storageCalls == w.storageCalls + [DownloadFile(entry.id, Local(env, entry))]
            && w'.externalCalls == w.externalCalls + [ConvertFromPath(Local(env, entry))]
  {
  }

  /**
   * Recognition succeeds exactly when every page does, and then yields one
   * text per page image, in page order, after one call per page.
   */
  lemma {:induction false} RecognizedTextsInOrder(tools: Toolchain, pdf: string, n: nat)
    ensures RecognizeSpec(tools, pdf, n).0.Ok? <==> AllPagesRecognised(tools, pdf, n)
    ensures AllPagesRecognised(tools, pdf, n) ==>
              && RecognizeSpec(tools, pdf, n).0 == Ok(PageTexts(tools, pdf, n))
              && RecognizeSpec(tools, pdf, n).1 == RecognizeCalls(pdf, n)
  {
    var replies := PageReplies(tools, pdf, n);
    var k := FirstFailingPage(tools, pdf, n);
    if AllPagesRecognised(tools, pdf, n) {
      assert seq(n, i requires 0 <= i < n => replies[i].value) == PageTexts(tools, pdf, n);
    } else {
      var j :| 0 <= j < n && tools.recognize(PageImage(pdf, j)).Raised?;
      assert IsRaised(replies[j]);
    }
  }

  /**
   * Recognition stops at the first failing page k: pages 0..k are requested,
   * no later page is, and the error is classified.
   */
  lemma RecognitionStopsAtFirstFailure(tools: Toolchain, pdf: string, n: nat, k: nat)
    requires k < n && AllPagesRecognised(tools, pdf, k) && tools.recognize(PageImage(pdf, k)).Raised?
    ensures RecognizeSpec(tools, pdf, n)
            == (Raised(ClassifyRecognitionError(tools.recognize(PageImage(pdf, k)).error)), RecognizeCalls(pdf, k + 1))
  {
    var replies := PageReplies(tools, pdf, n);
    var f := FirstFailingPage(tools, pdf, n);
    assert IsRaised(replies[k]);
  }

  /** A failure inside the renderer escapes unchanged; nothing is uploaded or moved. */
  lemma RenderFailureEscapes(env: Env, w: World, entry: FileMetadata, n: nat, e: Exc)
    requires ReachesRender(env, w, entry, n)
    requires env.tools.build(Result(env, entry), ResultFlowables(env, entry, n)) == Some(e)
    ensures var (outcome, w') := PipelineSpec(env, w, entry);
            && outcome == Failed(e)
            && w'.storageCalls == w.storageCalls + [DownloadFile(entry.id, Local(env, entry))]
            && w'.externalCalls == w.externalCalls + [ConvertFromPath(Local(env, entry))]
                                   + RecognizeCalls(Local(env, entry), n)
                                   + [Build(Result(env, entry), ResultFlowables(env, entry, n))]
  {
    RecognizedTextsInOrder(env.tools, Local(env, entry), n);
  }

  /**
   * Once rendered, the result goes to DST_FOLDER as "recognized_" + name; a
   * failed upload is TransientError and the original is not moved.
   */
  lemma UploadFailureIsTransient(env: Env, w: World, entry: FileMetadata, n: nat)
    requires '/' !in entry.name
    requires ReachesRender(env, w, entry, n)
    requires env.tools.build(Result(env, entry), ResultFlowables(env, entry, n)).None?
    requires ResultUpload(env, w, entry).0.Some?
    ensures var (outcome, w') := PipelineSpec(env, w, entry);
            && outcome == Failed(TransientError)
            && w'.storageCalls == w.storageCalls + [DownloadFile(entry.id, Local(env, entry)),
                 UploadFile(Result(env, entry), env.settings.dstFolder, "recognized_" + entry.name)]
  {
    RecognizedTextsInOrder(env.tools, Local(env, entry), n);
    ResultFileName(env, entry);
  }

  /**
   * After a successful upload the original is moved to the processed folder;
   * a missing setting or a failed move is TransientError, and only a
   * completed move makes the run succeed.
   */
  lemma MoveAfterUpload(env: Env, w: World, entry: FileMetadata, n: nat)
    requires '/' !in entry.name
    requires ReachesRender(env, w, entry, n)
    requires env.tools.build(Result(env, entry), ResultFlowables(env, entry, n)).None?
    requires ResultUpload(env, w, entry).0.None?
    ensures var (outcome, w') := PipelineSpec(env, w, entry);
            var uploaded := [DownloadFile(entry.id, Local(env, entry)),
                             UploadFile(Result(env, entry), env.settings.dstFolder, "recognized_" + entry.name)];
            match env.settings.processedFolder
            case None => outcome == Failed(TransientError) && w'.storageCalls == w.storageCalls + uploaded
            case Some(folder) =>
              var (moveErr, moved) := Move(env.backend, ResultUpload(env, w, entry).1, entry.id, folder);
              && w'.storageCalls == w.storageCalls + uploaded + [MoveFile(entry.id, folder)]
              && w'.store == moved
              && (outcome == Success <==> moveErr.None?)
              && (outcome != Success ==> outcome == Failed(TransientError))
  {
    RecognizedTextsInOrder(env.tools, Local(env, entry), n);
    ResultFileName(env, entry);
  }

  /**
   * A run succeeds only when every phase did: the file was downloaded,
   * rasterised into n > 0 pages, every page recognised, the PDF rendered from
   * those texts in page order, uploaded, and the original moved.
   */
  lemma SuccessNeedsEveryPhase(env: Env, w: World, entry: FileMetadata)
    requires PipelineSpec(env, w, entry).0 == Success
    ensures exists n :: ReachesRender(env, w, entry, n)
                        && env.tools.build(Result(env, entry), ResultFlowables(env, entry, n)).None?
                        && ResultUpload(env, w, entry).0.None?
                        && env.settings.processedFolder.Some?
                        && Move(env.backend, ResultUpload(env, w, entry).1, entry.id, env.settings.processedFolder.value).0.None?
  {
    var pages := env.tools.convert(Local(env, entry));
    var n := pages.value;
    RecognizedTextsInOrder(env.tools, Local(env, entry), n);
    assert ReachesRender(env, w, entry, n);
  }

  /**
   * An exception that escapes unclassified came from the renderer or from a
   * recognition error outside the four mapped ones.
   */
  lemma UnclassifiedOrigins(env: Env, w: World, entry: FileMetadata)
    requires PipelineSpec(env, w, entry).0.Failed?
    requires KindOf(PipelineSpec(env, w, entry).0.error) == Unclassified
    ensures var e := PipelineSpec(env, w, entry).0.error;
            || (exists n :: ReachesRender(env, w, entry, n)
                            && env.tools.build(Result(env, entry), ResultFlowables(env, entry, n)) == Some(e))
            || (exists k :: env.tools.recognize(PageImage(Local(env, entry), k)) == Raised(e)
                            && e !in {ApiConnectionError, RateLimitError, BadRequestError, AuthenticationError})
  {
    var e := PipelineSpec(env, w, entry).0.error;
    var local := Local(env, entry);
    var n := env.tools.convert(local).value;
    var f := FirstFailingPage(env.tools, local, n);
    if f < n {
      var replies := PageReplies(env.tools, local, n);
      assert env.tools.recognize(PageImage(local, f)) == replies[f];
    } else {
      RecognizedTextsInOrder(env.tools, local, n);
      assert ReachesRender(env, w, entry, n);
    }
  }

  /** The cleanup removes exactly the listed files whose unlink succeeds, and tries each one present. */
  lemma {:induction false} CleanupRemovesPaths(fault: string -> Option<Exc>, local: set<string>, unlinked: seq<string>, paths: seq<string>)
    requires forall i, j :: 0 <= i < j < |paths| ==> paths[i] != paths[j]
    ensures forall q :: q in CleanupSpec(fault, local, unlinked, paths).0 <==> q in local && !(q in paths && fault(q).None?)
    ensures CleanupSpec(fault, local, unlinked, paths).1 == unlinked + Filter(paths, q => q in local)
  {
    if paths != [] {
      var init := paths[..|paths| - 1];
      var p := paths[|paths| - 1];
      CleanupRemovesPaths(fault, local, unlinked, init);
      assert paths == init + [p];
      assert p !in init;
      FilterAppend(init, [p], q => q in local);
    }
  }

  lemma {:induction false} FilterAppend<T(!new)>(a: seq<T>, b: seq<T>, keep: T -> bool)
    ensures Filter(a + b, keep) == Filter(a, keep) + Filter(b, keep)
  {
    if a == [] {
      assert a + b == b;
    } else {
      assert (a + b)[0] == a[0];
      assert (a + b)[1..] == a[1..] + b;
      FilterAppend(a[1..], b, keep);
    }
  }

  /**
   * Whatever the outcome, the run leaves the other local files as it found
   * them and removes both working files unless their unlink fails; the
   * cleanup itself never changes the outcome.
   */
  lemma CleanupOnEveryPath(env: Env, w: World, entry: FileMetadata)
    ensures var (outcome, w') := PipelineSpec(env, w, entry);
            && outcome == AttemptSpec(env, w, entry).0
            && w'.local - {Local(env, entry), Result(env, entry)} == w.local - {Local(env, entry), Result(env, entry)}
            && (env.unlinkFault(Local(env, entry)).None? ==> Local(env, entry) !in w'.local)
            && (env.unlinkFault(Result(env, entry)).None? ==> Result(env, entry) !in w'.local)
  {
    var (outcome, a) := AttemptSpec(env, w, entry);
    var paths := [Local(env, entry), Result(env, entry)];
    assert |Local(env, entry)| < |Result(env, entry)|;
    CleanupRemovesPaths(env.unlinkFault, a.local, a.unlinked, paths);
    AttemptLocalFiles(env, w, entry);
  }

  /** The attempt adds at most the two working files to the local buffer. */
  lemma AttemptLocalFiles(env: Env, w: World, entry: FileMetadata)
    ensures w.local <= AttemptSpec(env, w, entry).1.local <= w.local + {Local(env, entry), Result(env, entry)}
  {
  }
}
