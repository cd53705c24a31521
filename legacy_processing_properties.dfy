/** What the older pipeline promises, proved about its specification. */
module LegacyProcessingProperties {
  import opened Wrappers
  import opened Exceptions
  import opened Strings
  import opened Collaborators
  import opened DropboxSdk
  import opened LegacyDbox
  import opened LegacyPdfUtils
  import opened Processing
  import opened ProcessingProperties
  import opened LegacyProcessing

  function LLocal(env: LegacyEnv, entry: Metadata): string {
    LegacyLocalPath(env.settings, entry.name)
  }

  function LResult(env: LegacyEnv, entry: Metadata): string {
    LegacyResultPath(env.settings, entry.name)
  }

  /** Only an ApiError on download becomes TransientError; any other download exception escapes unchanged. */
  lemma LegacyDownloadFailure(env: LegacyEnv, w: LegacyWorld, entry: Metadata, e: Exc)
    requires env.account.fault(DownloadToFile(LLocal(env, entry), entry.pathDisplay)) == Some(e)
    ensures var (outcome, w') := LegacyAttemptSpec(env, w, entry);
            && outcome == Failed(if e == DropboxApiError then TransientError else e)
            && w'.sdkCalls == w.sdkCalls + [DownloadToFile(LLocal(env, entry), entry.pathDisplay)]
            && w'.externalCalls == w.externalCalls
  {
  }

  /** A conversion that raises, or yields no page, is PermanentError. */
  lemma LegacyConversionFailureIsPermanent(env: LegacyEnv, w: LegacyWorld, entry: Metadata)
    requires env.account.fault(DownloadToFile(LLocal(env, entry), entry.pathDisplay)).None?
    requires env.tools.convert(LLocal(env, entry)).Raised? || env.tools.convert(LLocal(env, entry)) == Ok(0)
    ensures LegacyAttemptSpec(env, w, entry).0 == Failed(PermanentError)
  {
  }

  /**
   * Recognition succeeds exactly when every page does; page i's text is then
   * "--- Page i+1 ---\n" followed by its recognised text, in page order.
   */
  lemma PrefixedTextsInOrder(tools: Toolchain, pdf: string, n: nat)
    ensures LegacyRecognizeSpec(tools, pdf, n).0.Ok? <==> AllPagesRecognised(tools, pdf, n)
    ensures AllPagesRecognised(tools, pdf, n) ==>
              var texts := LegacyRecognizeSpec(tools, pdf, n).0.value;
              && |texts| == n
              && forall i :: 0 <= i < n ==> texts[i] == PagePrefix(i) + tools.recognize(PageImage(pdf, i)).value
  {
    RecognizedTextsInOrder(tools, pdf, n);
  }

  /** Download, rasterisation into n > 0 pages and recognition of every page succeed. */
  predicate LegacyReachesRender(env: LegacyEnv, entry: Metadata, n: nat) {
    && env.account.fault(DownloadToFile(LLocal(env, entry), entry.pathDisplay)).None?
    && env.tools.convert(LLocal(env, entry)) == Ok(n) && n > 0
    && AllPagesRecognised(env.tools, LLocal(env, entry), n)
  }

  /** The recognised page texts, each after its page header. */
  function PrefixedTexts(env: LegacyEnv, entry: Metadata, n: nat): seq<string>
    requires AllPagesRecognised(env.tools, LLocal(env, entry), n)
  {
    var texts := PageTexts(env.tools, LLocal(env, entry), n);
    seq(n, i requires 0 <= i < n => PagePrefix(i) + texts[i])
  }

  /** The text handed to the renderer: the prefixed page texts joined by blank lines. */
  function FullText(env: LegacyEnv, entry: Metadata, n: nat): string
    requires AllPagesRecognised(env.tools, LLocal(env, entry), n)
  {
    Join(PrefixedTexts(env, entry, n), "\n\n")
  }

  /** With every page recognised, recognition yields the prefixed page texts after one call per page. */
  lemma LegacyTextsAreFull(env: LegacyEnv, entry: Metadata, n: nat)
    requires AllPagesRecognised(env.tools, LLocal(env, entry), n)
    ensures LegacyRecognizeSpec(env.tools, LLocal(env, entry), n)
            == (Ok(PrefixedTexts(env, entry, n)), RecognizeCalls(LLocal(env, entry), n))
  {
    PrefixedTextsInOrder(env.tools, LLocal(env, entry), n);
    RecognizedTextsInOrder(env.tools, LLocal(env, entry), n);
  }

  /** Without the font file the run raises FileNotFoundError unclassified: nothing is built or uploaded. */
  lemma MissingFontEscapes(env: LegacyEnv, w: LegacyWorld, entry: Metadata, n: nat)
    requires LegacyReachesRender(env, entry, n) && !env.tools.fonts.regular
    ensures var (outcome, w') := LegacyAttemptSpec(env, w, entry);
            && outcome == Failed(FileNotFoundError)
            && KindOf(FileNotFoundError) == Unclassified
            && w'.sdkCalls == w.sdkCalls + [DownloadToFile(LLocal(env, entry), entry.pathDisplay)]
            && forall c :: c in w'.externalCalls[|w.externalCalls|..] ==> !c.Build?
  {
    RecognizedTextsInOrder(env.tools, LLocal(env, entry), n);
    var w' := LegacyAttemptSpec(env, w, entry).1;
    var calls := [ConvertFromPath(LLocal(env, entry))] + RecognizeCalls(LLocal(env, entry), n);
    assert w'.externalCalls == w.externalCalls + calls;
    assert w'.externalCalls[|w.externalCalls|..] == calls;
  }

  /**
   * Once rendered from the full text, the result goes to DROPBOX_DEST_DIR as
   * "recognized_" + name; an ApiError there is TransientError, any other
   * exception escapes, and the original is then left alone.
   */
  lemma LegacyUpload(env: LegacyEnv, w: LegacyWorld, entry: Metadata, n: nat)
    requires '/' !in entry.name
    requires LegacyReachesRender(env, entry, n) && env.tools.fonts.regular
    requires env.tools.build(LResult(env, entry), LineParagraphs(FullText(env, entry, n))).None?
    ensures var (outcome, w') := LegacyAttemptSpec(env, w, entry);
            var upload := Upload(LResult(env, entry), env.settings.destDir + "/" + ("recognized_" + entry.name));
            && |w'.sdkCalls| >= |w.sdkCalls| + 2
            && w'.sdkCalls[..|w.sdkCalls| + 2] == w.sdkCalls + [DownloadToFile(LLocal(env, entry), entry.pathDisplay), upload]
            && (env.account.fault(upload).Some? ==>
                  && outcome == Failed(if env.account.fault(upload) == Some(DropboxApiError) then TransientError
                                       else env.account.fault(upload).value)
                  && |w'.sdkCalls| == |w.sdkCalls| + 2)
  {
    LegacyTextsAreFull(env, entry, n);
    BasenameOfChild(env.settings.bufDir, "recognized_" + entry.name);
  }

  /** After a successful upload, a delete that fails with ApiError is only logged: the run succeeds. */
  lemma DeleteFailureTolerated(env: LegacyEnv, w: LegacyWorld, entry: Metadata, n: nat)
    requires '/' !in entry.name
    requires LegacyReachesRender(env, entry, n) && env.tools.fonts.regular
    requires env.tools.build(LResult(env, entry), LineParagraphs(FullText(env, entry, n))).None?
    requires env.account.fault(Upload(LResult(env, entry), env.settings.destDir + "/" + ("recognized_" + entry.name))).None?
    requires env.account.fault(DeleteV2(entry.pathDisplay)) in {None, Some(DropboxApiError)}
    ensures var (outcome, w') := LegacyAttemptSpec(env, w, entry);
            && outcome == Success
            && w'.sdkCalls == w.sdkCalls + [DownloadToFile(LLocal(env, entry), entry.pathDisplay),
                 Upload(LResult(env, entry), env.settings.destDir + "/" + ("recognized_" + entry.name)),
                 DeleteV2(entry.pathDisplay)]
  {
    LegacyTextsAreFull(env, entry, n);
    BasenameOfChild(env.settings.bufDir, "recognized_" + entry.name);
  }

  /**
   * The `finally` block: when no removal raises, the outcome is the attempt's
   * and neither working file is left; when removing the downloaded file
   * raises, that exception replaces the outcome and the result file is not
   * touched.
   */
  lemma LegacyCleanup(env: LegacyEnv, w: LegacyWorld, entry: Metadata)
    ensures var (attempt, a) := LegacyAttemptSpec(env, w, entry);
            var (outcome, w') := LegacyPipelineSpec(env, w, entry);
            && (env.unlinkFault(LLocal(env, entry)).None? && env.unlinkFault(LResult(env, entry)).None? ==>
                  outcome == attempt && LLocal(env, entry) !in w'.local && LResult(env, entry) !in w'.local)
            && (LLocal(env, entry) in a.local && env.unlinkFault(LLocal(env, entry)).Some? ==>
                  outcome == Failed(env.unlinkFault(LLocal(env, entry)).value)
                  && w'.unlinked == a.unlinked + [LLocal(env, entry)]
                  && (LResult(env, entry) in a.local ==> LResult(env, entry) in w'.local))
  {
    assert |LLocal(env, entry)| < |LResult(env, entry)|;
  }

  /**
   * The rendering step: a missing font raises FileNotFoundError before any
   * build; otherwise there is exactly one build of the line paragraphs, and
   * the result file exists afterwards iff the build succeeded.
   */
  lemma RenderOutcomes(env: LegacyEnv, w: LegacyWorld, fullText: string, resultPdf: string)
    ensures var (err, w') := RenderSpec(env, w, fullText, resultPdf);
            && w'.sdkCalls == w.sdkCalls && w'.unlinked == w.unlinked
            && (!env.tools.fonts.regular ==> err == Some(FileNotFoundError) && w' == w)
            && (env.tools.fonts.regular ==>
                  && err == env.tools.build(resultPdf, LineParagraphs(fullText))
                  && w'.externalCalls == w.externalCalls + [Build(resultPdf, LineParagraphs(fullText))])
            && (err.None? ==> w'.local == w.local + {resultPdf})
            && (err.Some? ==> w'.local == w.local)
  {
  }

  /**
   * The upload and the delete of the original: the upload goes first, to the
   * destination folder under the result's base name; a failed upload ends the
   * step with its error (an ApiError as TransientError) and no delete; the
   * step succeeds iff the upload succeeded and the delete either succeeded or
   * failed with an ApiError.
   */
  lemma PublishOutcomes(env: LegacyEnv, w: LegacyWorld, entry: Metadata, resultPdf: string)
    ensures var (outcome, w') := PublishSpec(env, w, entry, resultPdf);
            var upload := Upload(resultPdf, env.settings.destDir + "/" + Basename(resultPdf));
            && w' == w.(sdkCalls := w'.sdkCalls)
            && (resultPdf !in w.local ==> outcome == Failed(FileNotFoundError) && w' == w)
            && (resultPdf in w.local && env.account.fault(upload).Some? ==>
                  && outcome == Failed(ApiErrorIsTransient(env.account.fault(upload).value))
                  && w'.sdkCalls == w.sdkCalls + [upload])
            && (resultPdf in w.local && env.account.fault(upload).None? ==>
                  w'.sdkCalls == w.sdkCalls + [upload, DeleteV2(entry.pathDisplay)])
            && (outcome == Success <==>
                  && resultPdf in w.local
                  && env.account.fault(upload).None?
                  && env.account.fault(DeleteV2(entry.pathDisplay)) in {None, Some(DropboxApiError)})
  {
  }

  /**
   * One unguarded `os.remove`: a missing file, or an earlier removal that
   * raised, leaves everything as it was; otherwise the removal is recorded,
   * and an exception replaces the outcome and stops the later removals.
   */
  lemma UnguardedRemoval(fault: string -> Option<Exc>, r: (Outcome, LegacyWorld, bool), path: string)
    ensures var res := RemoveIfExists(fault, r, path);
            && (r.2 || path !in r.1.local ==> res == r)
            && (!r.2 && path in r.1.local ==>
                  && res.1 == r.1.(unlinked := r.1.unlinked + [path], local := res.1.local)
                  && (res.2 <==> fault(path).Some?)
                  && (res.2 ==> res.0 == Failed(fault(path).value) && res.1.local == r.1.local)
                  && (!res.2 ==> res.0 == r.0 && res.1.local == r.1.local - {path}))
  {
  }
}
