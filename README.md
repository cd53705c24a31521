# remrec in Dafny: the OCR pipeline, its recovery policy and the storage adapters

remrec polls a cloud folder (Dropbox or Google Drive) for PDFs of handwritten
notes. It rasterises each PDF, sends every page image to a vision model for
text recognition, renders the recognised text as a new PDF, uploads it, and
moves the original out of the source folder. A file whose processing fails for
good is quarantined in a "failed" folder. A file whose failure is transient is
left in place for the next pass.

This project models the core of that program and proves what it promises:

- **The per-file pipeline** (`Processing`, src/processing.py). It is a method
  over a storage client, the external collaborators and a local working
  directory, proved equal to a specification function `PipelineSpec`. The
  phases are: download, rasterise, recognise each page in order, render,
  upload, move the original, and clean up in every case. Each phase maps its
  failures to `TransientError` or `PermanentError`, or lets them escape
  unclassified. `ProcessingProperties` proves the phase-by-phase promises
  about the specification.
- **The older pipeline** (`LegacyProcessing`, processing.py at the repository
  root). It runs on the older Dropbox-only client (`LegacyDbox`, dbox.py). It
  deletes the original instead of moving it, and a failed delete is only
  logged. Its `finally` removes the working files without a guard.
- **The driver** (`Workflow`, src/main.py). It covers client selection with
  the environment-then-file token fallback, folder verification, the ".pdf"
  filter, and the per-entry recovery policy: quarantine on a permanent or
  unclassified failure, nothing on a transient one, and continue after every
  failure. `LegacyWorkflow` is the older Dropbox-only driver (main.py).
- **The storage capability** (`Storage`, src/storage/base.py). It works over
  an abstract remote store, and the pipeline and driver are written against
  it.
- **The Dropbox adapter** (`Dbox` and `DboxUpload`, src/dbox.py). It covers
  cursor pagination, DTO mapping, path joining with "//" collapsed, and the
  byte-range arithmetic of the chunked upload.
- **The Google Drive adapter** (`GoogleDrive`, src/gdrive.py). It covers the
  segment-by-segment folder walk with its in-place id cache, and the mapping
  of HTTP errors.
- **The renderers.** `PdfUtils` (src/pdf_utils.py) chooses the fonts and
  builds the title, content and page-break sequence. `LegacyPdfUtils`
  (pdf_utils.py) builds one paragraph per line.
- **The settings validator and secret masking** (`Config`, src/config.py).

External behaviour is an oracle fixed for one run. This covers the SDK calls
that raise, the listing pages a folder returns, what rasterisation and
recognition answer, whether a document build fails, whether an unlink fails,
and which font files exist. Stateful code keeps its form: `StorageClient`,
`DropboxClient`, `LegacyDropboxClient`, `GoogleDriveClient`, `Settings`,
`LocalBuffer` and `Externals` are classes whose methods update their fields.
Each method is proved equal to a pure function of the old state, and the
properties are lemmas about those functions.

Two settings that the code reads are not defined by the settings classes it
ships with:

- `src/processing.py:123` reads `PROCESSED_FOLDER`, which src/config.py does
  not define. The pipeline takes the folder as `Option<string>`. `None` stands
  for the shipped configuration: reading it raises `AttributeError`, which
  the surrounding `except` turns into `TransientError`
  (`ProcessingProperties.MoveAfterUpload`). As shipped, every run that gets
  past the upload therefore ends Transient and is retried forever.
- main.py reads `DROPBOX_REFRESH_TOKEN_ENV` and `DROPBOX_REFRESH_TOKEN_FILE`,
  which config.py at the root does not define. The older driver therefore
  takes its client as a parameter; null means no token connected.

## Model

| member | source | states |
|---|---|---|
| Processing.DownloadAndConvertSpec | src/processing.py:17-38 | a download or conversion failure is raised only as TransientError or PermanentError, and a successful conversion yields at least one page |
| Processing.DownloadAndConvert | src/processing.py:17-38 | the result, the store, the local files and the calls made are exactly those of DownloadAndConvertSpec |
| Processing.ClassifyRecognitionError | src/processing.py:52-63 | connection and rate-limit errors become TransientError, bad-request and authentication errors PermanentError, and any other exception is passed on unchanged |
| Processing.RecognizePages | src/processing.py:41-64 | the per-page loop returns the texts or the classified error of RecognizeSpec and makes exactly its recognition calls, in page order |
| Processing.CreateAndUploadSpec | src/processing.py:67-82 | rendering and uploading never record an unlink; the phase's outcomes are stated by RenderFailureEscapes and UploadFailureIsTransient |
| Processing.CreateAndUploadPdf | src/processing.py:67-82 | the error, the store, the local files and the calls are those of CreateAndUploadSpec |
| Processing.MoveOriginalSpec | src/processing.py:120-131 | a failed move of the original is always TransientError, and without a PROCESSED_FOLDER setting the step raises TransientError and changes nothing |
| Processing.CleanupSpec | src/processing.py:85-97 | the cleanup only ever removes local files, never adds one |
| Processing.CleanupLocalFiles | src/processing.py:85-97 | the loop over the paths leaves the files and the unlink record of CleanupSpec |
| Processing.ProcessSingleFile | src/processing.py:100-135 | the outcome, the store, the local files and every call made are those of PipelineSpec: the attempt, then the cleanup of both working files |
| ProcessingProperties.ResultFileName | src/processing.py:107 | the result file is named "recognized_" followed by the original name |
| ProcessingProperties.DownloadFailureIsTransient | src/processing.py:21-24 | any download failure ends the run with TransientError after the download call alone: no conversion, recognition, upload or move, and the store is unchanged |
| ProcessingProperties.ConversionFailureIsPermanent | src/processing.py:26-38 | a conversion that raises (page-count, syntax or any other error) or yields zero pages ends the run with PermanentError, with nothing recognised or uploaded |
| ProcessingProperties.RecognizedTextsInOrder | src/processing.py:45-51 | recognition succeeds exactly when every page does, and then gives one text per page image, in page order, after one call per page |
| ProcessingProperties.RecognitionStopsAtFirstFailure | src/processing.py:46-63 | at the first failing page k, pages 0..k are requested, no later page is, and the error is the classified one |
| ProcessingProperties.RenderFailureEscapes | src/processing.py:74 | an exception inside the renderer ends the run with that same exception, and nothing is uploaded or moved |
| ProcessingProperties.UploadFailureIsTransient | src/processing.py:75-82 | the result goes to DST_FOLDER as "recognized_" + name; a failed upload is TransientError and the original is not moved |
| ProcessingProperties.MoveAfterUpload | src/processing.py:118-131 | after a successful upload the original is moved to the processed folder; the run succeeds iff that move succeeds, and otherwise (including a missing setting) it is TransientError |
| ProcessingProperties.SuccessNeedsEveryPhase | src/processing.py:110-131 | a successful run downloaded, rasterised into n > 0 pages, recognised every page, rendered, uploaded and moved the original |
| ProcessingProperties.UnclassifiedOrigins | src/processing.py:46-74 | an exception that escapes unclassified came from the renderer or from a recognition error outside the four mapped classes |
| ProcessingProperties.CleanupRemovesPaths | src/processing.py:85-97 | the cleanup removes exactly the listed files whose unlink succeeds, tries each one that is present, and leaves every other file alone |
| ProcessingProperties.CleanupOnEveryPath | src/processing.py:133-135 | whatever the attempt's outcome, the cleanup keeps that outcome, leaves the other local files as they were, and removes both working files unless their unlink fails |
| Processing.AttemptSpec | src/processing.py:110-131 | the body of the try adds at most the two working files to the local directory and removes nothing: removal is left to the finally |
| ProcessingProperties.AttemptLocalFiles | src/processing.py:106-118 | the attempt adds at most the two working files to the local directory |
| LegacyProcessing.LegacyRecognizePages | processing.py:43-58 | the loop's texts, each prefixed with its page header, and its calls are those of LegacyRecognizeSpec |
| LegacyProcessing.LegacyProcessSingleFile | processing.py:14-87 | the outcome and every call and local-file change are those of LegacyPipelineSpec, including the unguarded removals of the `finally` |
| LegacyProcessingProperties.LegacyDownloadFailure | processing.py:24-28 | only an ApiError on download becomes TransientError; any other download exception escapes unchanged; nothing follows the download |
| LegacyProcessingProperties.LegacyConversionFailureIsPermanent | processing.py:31-41 | a conversion that raises or yields zero pages ends the attempt with PermanentError |
| LegacyProcessingProperties.PrefixedTextsInOrder | processing.py:44-60 | recognition succeeds exactly when every page does, and page i's text is then "--- Page i+1 ---\n" followed by its recognised text, in page order |
| LegacyProcessingProperties.LegacyTextsAreFull | processing.py:44-60 | when every page is recognised, recognition yields the header-prefixed page texts after exactly one recognition request per page |
| LegacyProcessing.ApiErrorIsTransient | processing.py:26-28 | only a Dropbox ApiError is reclassified, as TransientError; every other exception passes unchanged, and no ApiError is left |
| LegacyProcessingProperties.RenderOutcomes | processing.py:62-63 | a missing font raises FileNotFoundError before any build; otherwise there is exactly one build of the line paragraphs, and the result file exists afterwards iff the build succeeded |
| LegacyProcessingProperties.PublishOutcomes | processing.py:65-77 | the upload to DROPBOX_DEST_DIR/result name goes first; a failed upload is returned, as TransientError for an ApiError, and no delete follows; the step succeeds iff the upload succeeded and the delete succeeded or failed with an ApiError |
| LegacyProcessingProperties.MissingFontEscapes | processing.py:63 | without the font file the attempt raises FileNotFoundError, an unclassified exception, and nothing is built or uploaded |
| LegacyProcessingProperties.LegacyUpload | processing.py:66-70 | the result is uploaded to DROPBOX_DEST_DIR + "/recognized_" + name; an ApiError there is TransientError, any other exception escapes, and the original is not deleted |
| LegacyProcessingProperties.DeleteFailureTolerated | processing.py:73-79 | after a successful upload, a delete of the original that fails with ApiError is only logged and the run succeeds |
| LegacyProcessingProperties.UnguardedRemoval | processing.py:84-87 | a missing file, or an earlier removal that raised, leaves everything unchanged; otherwise the removal is recorded, and if it raises, its exception replaces the outcome and skips the later removals |
| LegacyProcessingProperties.LegacyCleanup | processing.py:81-87 | when no removal raises, the outcome is the attempt's and neither working file is left; a raising removal of the download replaces the outcome and skips the result file |
| LegacyDbox.CreateFolderSpec | dbox.py:78-87 | the folder is looked up first, and created only when the lookup fails with a not-found ApiError; any other lookup error is re-raised |
| LegacyDbox.LegacyDropboxClient.ListFiles | dbox.py:30-37 | one listing call; its entries on success, [] on an ApiError, and any other exception re-raised |
| LegacyDbox.LegacyDropboxClient.DownloadFile | dbox.py:39-46 | one download call whose error is re-raised; the local file exists iff it succeeded |
| LegacyDbox.LegacyDropboxClient.UploadFile | dbox.py:48-58 | opening a missing local file raises FileNotFoundError before any call; otherwise one upload call whose error is re-raised |
| LegacyDbox.LegacyDropboxClient.MoveFile | dbox.py:60-67 | one move call, with both paths as given, whose error is re-raised |
| LegacyDbox.LegacyDropboxClient.DeleteFile | dbox.py:69-76 | one delete call whose error is re-raised |
| LegacyDbox.LegacyDropboxClient.CreateFolderIfNotExists | dbox.py:78-87 | the result and the calls are those of CreateFolderSpec |
| LegacyPdfUtils.LineParagraphs | pdf_utils.py:23 | one paragraph per "\n"-separated line, so as many as there are "\n" plus one, each in the DejaVuSans line style and free of newlines |
| LegacyPdfUtils.LinesInOrder | pdf_utils.py:23 | the paragraphs are the lines in order: rejoined with "\n" they give back the text |
| LegacyPdfUtils.TxtToPdfLineByLine | pdf_utils.py:10-24 | a missing font raises FileNotFoundError before any build; otherwise the document is built exactly once, from the line paragraphs |
| PdfUtils.ChooseFonts | src/pdf_utils.py:17-64 | without the base font nothing is registered and Helvetica is used; with it, DejaVuSans is registered first, each variant only if its own file exists (else the base name), and the family names exactly the registered fonts |
| PdfUtils.ReflowedFlowables | src/pdf_utils.py:78-92 | the loop appends exactly the flowables of Flowables(pages, font) |
| PdfUtils.FlowablesLength | src/pdf_utils.py:90-92 | n pages give 3n - 1 flowables, and no page gives none |
| PdfUtils.FlowablesAt | src/pdf_utils.py:80-92 | page i contributes, at positions 3i, 3i+1, 3i+2, its title "--- Page i+1 ---", its content in the custom style with the chosen font, and a page break unless it is the last page |
| PdfUtils.TitleHasNoNewline | src/pdf_utils.py:81 | a page title "--- Page n ---" is a single line |
| PdfUtils.NoRawNewlines | src/pdf_utils.py:81-89 | no paragraph handed to ReportLab contains a raw "\n": titles are single lines and every newline of a page became "<br/>" |
| PdfUtils.CreateReflowedPdf | src/pdf_utils.py:11-95 | the document is built exactly once, from the whole flowable list with the chosen font, and the PDF exists iff the build succeeded |
| Storage.List | src/storage/base.py:14-22 | the listing raises iff the backend faults, and otherwise holds exactly the files of that folder |
| Storage.Download | src/storage/base.py:24-32 | a download succeeds iff the backend does not fault and the file exists, and only then does the local path hold a file |
| Storage.Upload | src/storage/base.py:34-43 | a successful upload needs the local file; afterwards the folder holds exactly one file of that name (the new one), and nothing else changes |
| Storage.Delete | src/storage/base.py:45-52 | a successful delete needs the file, removes exactly it, and changes nothing else |
| Storage.Move | src/storage/base.py:54-62 | a successful move needs the file, puts it in the destination folder keeping its id and name, and changes nothing else |
| Storage.Verify | src/storage/base.py:64-72 | verification passes iff the backend does not fault and the folder exists |
| Storage.UploadThenList | src/storage/base.py:34-43 | an uploaded file is then listed in its folder under its file name |
| Storage.MoveThenList | src/storage/base.py:54-62 | a moved file is then listed in its new folder and no longer in its old one |
| Storage.StorageClient.ListFiles | src/storage/base.py:14-22 | returns List on the current store, changes no store, and records the call |
| Storage.StorageClient.DownloadFile | src/storage/base.py:24-32 | the error and the local files are those of Download |
| Storage.StorageClient.UploadFile | src/storage/base.py:34-43 | the error and the new store are those of Upload |
| Storage.StorageClient.DeleteFile | src/storage/base.py:45-52 | the error and the new store are those of Delete |
| Storage.StorageClient.MoveFile | src/storage/base.py:54-62 | the error and the new store are those of Move |
| Storage.StorageClient.VerifyFolderExists | src/storage/base.py:64-72 | the error is that of Verify, and the store is unchanged |
| Dbox.ToDto | src/dbox.py:51-57 | a Dropbox file is addressed by its path: the DTO's id and path are both the entry's path_display, its name is kept and its folder is the listed folder |
| Dbox.Dtos | src/dbox.py:47-59 | every file entry becomes a DTO with id = path = its display path and folder = the listed folder; folders and deleted entries are dropped, and nothing else is produced |
| Dbox.FileDtos | src/dbox.py:48-59 | the mapping loop over the collected entries returns exactly Dtos of them, in order |
| Dbox.ListingIsPageOrdered | src/dbox.py:38-62 | a listing that ends without error returns the DTOs of every page, concatenated in page order; an ApiError on any page gives [] |
| Dbox.RemotePathJoins | src/dbox.py:77-79 | a folder and a file name with no "//" and no '/' at the seam are joined by exactly one '/' |
| Dbox.RootFolderPath | src/dbox.py:77-79 | the root folder, written "" or "/", gives the remote path "/" + filename |
| Dbox.MoveTargetJoins | src/dbox.py:138-139 | a move keeps the file's base name and places it directly under the target folder |
| Dbox.QuarantineLandsInSubfolder | src/dbox.py:138-139 | the driver's quarantine passes failed + "/" + name as a folder, so the move targets failed/name/name |
| Dbox.CorrectedQuarantineTarget | src/dbox.py:138-139 | when the failed folder itself is passed, as move_file's contract expects, the file lands at failed/name |
| Dbox.IssueStopsAtFirstFailure | src/dbox.py:86-127 | the upload requests are sent in order, each only after the previous one succeeded; an upload stops at the first request that raises and returns its error, and succeeds only when every request succeeded |
| Dbox.DropboxClient.ListFiles | src/dbox.py:33-62 | the pagination loop follows the cursor while has_more, and its result and calls are those of ListSpec |
| Dbox.DropboxClient.DownloadFile | src/dbox.py:64-71 | one download call whose error is re-raised |
| Dbox.DropboxClient.UploadFile | src/dbox.py:73-133 | the requests of AsWrittenPlan are sent to the collapsed remote path in order until one raises, and that error is re-raised |
| Dbox.DropboxClient.UploadFileCorrected | src/dbox.py:96-127 | the same upload with the last-chunk test before the read: the requests of CorrectedPlan, in order until one raises |
| Dbox.DropboxClient.MoveFile | src/dbox.py:135-144 | one move call to the destination folder joined with the file's base name, "//" collapsed, whose error is re-raised |
| Dbox.DropboxClient.DeleteFile | src/dbox.py:146-153 | one delete call whose error is re-raised |
| Dbox.DropboxClient.VerifyFolderExists | src/dbox.py:155-176 | the root "" passes with no call; otherwise one metadata call whose error is re-raised |
| DboxUpload.ChunkLoopReadsToEnd | src/dbox.py:113-127 | the loop as written reads the file correctly: its requests carry consecutive ranges of at most one chunk, from the cursor to the end of the file, and each is an append or a finish |
| DboxUpload.WellFormedSendsEveryByte | src/dbox.py:86-127 | a well-formed upload, the property a correct session upload has, sends every byte of the file exactly once: its ranges add up to the file size |
| DboxUpload.ExactChunkNeverFinishes | src/dbox.py:113-120 | a file of exactly one chunk opens a session that is never finished |
| DboxUpload.TwoChunksCorrect | src/dbox.py:96-127 | between one and two chunks, the loop as written is a well-formed session upload |
| DboxUpload.LoopEndsInTwoFinishes | src/dbox.py:113-127 | once more than one chunk remains, the loop ends in two finishes, the last carrying the offset of the one before |
| DboxUpload.MoreThanTwoChunksFinishesTwice | src/dbox.py:113-127 | above two chunks the session is finished twice, the second time with a stale offset, so the upload is not well formed |
| DboxUpload.CorrectedPlanWellFormed | src/dbox.py:81-127 | with the test before the read, every upload is well formed (contiguous slices of at most one chunk, offsets equal to bytes sent, one final finish), whatever the size |
| DboxUpload.CorrectionAgreesBelowTwoChunks | src/dbox.py:81-127 | the correction changes nothing below one chunk or between one and two chunks |
| GoogleDrive.Lookup | src/gdrive.py:48-62 | a name lookup that fails with HttpError answers "not found"; any other exception escapes |
| GoogleDrive.Segments | src/gdrive.py:74 | the stripped, split path always has at least one segment |
| GoogleDrive.StepFacts | src/gdrive.py:78-105 | one iteration keeps every cached entry, adds at most its own prefix, makes no request for a cached prefix, looks an uncached one up under the current parent first, and turns a failed creation into PermanentError |
| GoogleDrive.EnsureAsWritten | src/gdrive.py:64-108 | a path already in the cache is answered from it with no request |
| GoogleDrive.EnsureCorrected | src/gdrive.py:64-105 | a path already in the cache is answered from it with no request |
| GoogleDrive.WalkKeepsCache | src/gdrive.py:77-105 | the walk keeps every cache entry it started with, with its id |
| GoogleDrive.WalkCachesPrefixes | src/gdrive.py:77-105 | after k segments without error every prefix 1..k is cached and the parent is the last one's id |
| GoogleDrive.WalkAddsOnlyPrefixes | src/gdrive.py:78-104 | the walk adds no cache key but prefixes of the path |
| GoogleDrive.CachedWalk | src/gdrive.py:79-81 | when every prefix is cached, the walk makes no request and changes nothing |
| GoogleDrive.CorrectedCachesEveryPrefix | src/gdrive.py:77-105 | without line 107 a successful walk caches every prefix, returns the id under the full path, and keeps every earlier entry |
| GoogleDrive.CorrectedIsIdempotent | src/gdrive.py:71-72 | without line 107, asking again for the same path returns the same id with no request |
| GoogleDrive.AsWrittenOverwritesCachedPrefix | src/gdrive.py:107 | as written, with {"a/b": B} cached, ensure("a/b/") returns B but rewrites "a/b" to A, so ensure("a/b") then answers A |
| GoogleDrive.AsWrittenUnboundWhenAllCached | src/gdrive.py:107 | as written, with {"a": A} cached, ensure("/a") raises UnboundLocalError; the corrected walk returns A |
| GoogleDrive.VerifyError | src/gdrive.py:251-285 | verification passes iff the item is a folder; a non-folder, a 404 or any other HTTP error is PermanentError, and a non-HTTP exception escapes |
| GoogleDrive.DriveDtos | src/gdrive.py:142-150 | one DTO per item, in order, with id = path = the Drive id, its name, and the listed folder |
| GoogleDrive.DeleteError | src/gdrive.py:206-221 | a delete succeeds iff it did not raise or raised a 404; any other exception is re-raised |
| GoogleDrive.DownloadError | src/gdrive.py:157-177 | a 404 becomes FileNotFoundError; any other exception is re-raised unchanged |
| GoogleDrive.UploadReplacesExisting | src/gdrive.py:179-204 | a same-named file in the folder is deleted before the new one is created, and a failed delete stops the upload; without one the file is created straight away |
| GoogleDrive.GoogleDriveClient.VisitSegment | src/gdrive.py:78-105 | one iteration updates the cache, the parent, folder_id and the requests exactly as one more segment of WalkTo |
| GoogleDrive.GoogleDriveClient.WalkSegments | src/gdrive.py:77-105 | the loop updates the cache in place and makes the requests exactly as WalkTo over all segments |
| GoogleDrive.GoogleDriveClient.EnsureFolderPathExists | src/gdrive.py:64-108 | the result, the cache left and the requests are those of EnsureAsWritten |
| GoogleDrive.GoogleDriveClient.EnsureFolderPathExistsCorrected | src/gdrive.py:64-105 | the result, the cache left and the requests are those of EnsureCorrected |
| GoogleDrive.GoogleDriveClient.VerifyFolderExists | src/gdrive.py:251-285 | one metadata request, and the error of VerifyError |
| GoogleDrive.GoogleDriveClient.ListFiles | src/gdrive.py:125-155 | the folder is verified first and its error propagates; otherwise the items become DTOs, and a failed listing gives [] |
| GoogleDrive.GoogleDriveClient.DownloadFile | src/gdrive.py:157-177 | one media request, and the error of DownloadError |
| GoogleDrive.GoogleDriveClient.UploadFile | src/gdrive.py:179-204 | the error and the requests are those of UploadSpec, and the cache is unchanged |
| GoogleDrive.GoogleDriveClient.DeleteFile | src/gdrive.py:206-221 | one delete request, and the error of DeleteError |
| GoogleDrive.GoogleDriveClient.MoveFile | src/gdrive.py:223-249 | the file's parents are read, then replaced by the new folder in one update; an error of either request is re-raised |
| Config.Validate | src/config.py:62-104 | no error iff the provider is "dropbox" with every Dropbox rule met or "gdrive" with every Drive value set; the provider's folders are copied, any other provider keeps the folders and is rejected, and the token warning fires iff an accepted Dropbox config has neither token |
| Config.DropboxSourceMayBeRoot | src/config.py:73-76 | the Dropbox source may be "" (the root) but not absent |
| Config.DropboxRuleOrder | src/config.py:69-82 | the Dropbox rules are checked in order, and the first one broken is the error raised |
| Config.TokenOnlyWarns | src/config.py:84-85 | neither the refresh token nor the token file affects acceptance or the folders |
| Config.LoggedSettings | src/config.py:134-139 | one logged line per setting, in order, with its name; a name containing "key", "secret" or "token" in any case shows "**********", any other shows its value |
| Config.SecretSettingsAreMasked | src/config.py:135-139 | OPENAI_API_KEY, DROPBOX_APP_SECRET, DROPBOX_REFRESH_TOKEN_ENV and GDRIVE_TOKEN_JSON are secret names, so LoggedSettings prints them masked |
| Config.CredentialsLoggedInClear | src/config.py:135-139 | GDRIVE_CREDENTIALS_JSON contains none of the mask words, so LoggedSettings prints it in clear |
| Config.SensitiveNamesIncludeCredentials | src/config.py:135-139 | the corrected test masks every name the written one masks, and GDRIVE_CREDENTIALS_JSON as well |
| Config.Settings.SetProviderFolders | src/config.py:61-104 | the folder fields, the error and the warning are those of Validate, and the folders stay assigned when it raises |
| Workflow.DropboxClientFor | src/main.py:52-91 | the environment token is tried first and wins if it connects; the file token is tried only after that, and the result is None iff neither connects |
| Workflow.InitDropboxClient | src/main.py:52-91 | the client and the tokens tried are those of DropboxClientFor |
| Workflow.InitializeStorageClient | src/main.py:109-137 | "dropbox" gives the DROPBOX_* folders and a Dropbox client iff a token connects; "gdrive" gives the GDRIVE_* folders; any other provider gives no client and no folders |
| Workflow.VerifyFolders | src/main.py:156-159 | verification only records verify calls and changes nothing else |
| Workflow.VerifyFoldersChecksInOrder | src/main.py:156-162 | each non-empty folder is verified in list order: with no failure, exactly one verify call per non-empty folder, in order; at the first folder that fails, the check stops there and returns that folder's error |
| Workflow.HandleEntry | src/main.py:170-172 | an entry is skipped iff its lower-cased name does not end in ".pdf", and a skipped entry makes no call and changes nothing |
| Workflow.Quarantine | src/main.py:188-191 | the quarantine makes one move of source/name to failed/name; the store changes only as that move changes it, and its error is returned rather than raised |
| Workflow.HandleEntries | src/main.py:170-227 | one disposition per listed entry, in order, and exactly the non-PDF entries are skipped |
| Workflow.HandleNext | src/main.py:170-227 | after entry i the pass holds i + 1 dispositions, and exactly the non-PDF entries among them are skipped |
| Workflow.MainWorkflow | src/main.py:140-227 | without a client the pass returns with no call; otherwise its end, dispositions, store, local files and every call are those of PassSpec |
| Workflow.DispositionFollowsOutcome | src/main.py:175-225 | a PDF is done on a normal return, left alone on TransientError, and otherwise quarantined with exactly one move of source/name to failed/name after the pipeline's calls |
| Workflow.PassHandlesEveryListedEntry | src/main.py:164-227 | a pass is processed iff every folder verified and the listing succeeded non-empty, and it then gives a disposition to every listed entry: no failure stops the loop |
| Workflow.EarlyEnds | src/main.py:156-167 | a failed verification ends the pass having made only verify calls; an empty listing ends it with nothing processed |
| Workflow.RootSourceIsNotVerified | src/main.py:157-159 | an instance of VerifyFoldersChecksInOrder: with the root "" as source and the other two folders passing, only the destination and then the failed folder are verified |
| LegacyWorkflow.CreateFolders | main.py:83-86 | folder creation only issues lookups and creations for the non-empty configured folders |
| LegacyWorkflow.CreateFoldersInOrder | main.py:83-86 | each non-empty folder is handled by create_folder_if_not_exists in list order: with no failure, every one of them is looked up, and created when missing; at the first that raises, the pass stops there with that folder's error |
| LegacyWorkflow.CreateFoldersAllSucceed | main.py:83-86 | when no folder raises, the calls are exactly those of create_folder_if_not_exists for each non-empty folder, in order |
| LegacyWorkflow.CreateFoldersFirstFailure | main.py:83-86 | at the first folder that raises, the error is that folder's and no later folder is touched |
| LegacyWorkflow.LegacyQuarantine | main.py:106-108 | the quarantine makes one move of the entry's display path to DROPBOX_FAILED_DIR/name, and that move's error is returned rather than raised |
| LegacyWorkflow.LegacyHandleEntry | main.py:94-95 | an entry is skipped iff it is not a file whose lower-cased name ends in ".pdf", and a skipped entry changes nothing |
| LegacyWorkflow.LegacyHandleEntries | main.py:94-127 | one disposition per listed entry, in order, and exactly the unprocessable entries are skipped |
| LegacyWorkflow.LegacyHandleNext | main.py:94-127 | after entry i the pass holds i + 1 dispositions, and exactly the unprocessable entries among them are skipped |
| LegacyWorkflow.LegacyMainWorkflow | main.py:45-127 | without a client the pass returns with no call; otherwise its end, dispositions, local files and every call are those of LegacyPassSpec |
| LegacyWorkflow.LegacyDispositionFollowsOutcome | main.py:98-125 | a processable entry is done on a normal return, left alone on TransientError, and otherwise quarantined with exactly one move of its display path to DROPBOX_FAILED_DIR/name, whose failure is only recorded |
| LegacyWorkflow.FolderNamedLikePdfIsSkipped | main.py:95 | a folder entry is skipped whatever its name |
| LegacyWorkflow.OnlySourceAndDestAreCreated | main.py:83-86 | the pass only looks up or creates the source and destination folders, never the root "" |
| LegacyWorkflow.LegacyPassHandlesEveryListedEntry | main.py:88-127 | a pass is processed iff folder creation succeeded and the listing was non-empty, and it then gives a disposition to every listed entry |
| LegacyWorkflow.ListingApiErrorEndsQuietly | main.py:88-91 | an ApiError while listing reads as an empty source folder: the pass ends with nothing processed |

## Left out

- Logging, timing, the polling loop with its sleep, and the command-line entry point are left out: they are I/O and timing, not behaviour.
- Text recognition (src/recognition.py, recognition.py) is an oracle that returns a text or an exception. The image encoding and the OpenAI client are not part of this model.
- The OAuth flows (auth.py, src/gdrive_auth.py) and the SDK client constructors are left out. Whether a token connects is a parameter.
- The root gdrive.py holds only stubs, and neither it nor the root config.py is modelled. The root config.py declares the older settings: some have defaults, others are required and read from .env (DROPBOX_APP_KEY, DROPBOX_APP_SECRET, DROPBOX_REFRESH_TOKEN, OPENAI_API_KEY, OPENAI_BASE_URL). It has no validation logic.
- Rasterisation, ReportLab's layout and build, the Dropbox and Drive SDKs, and file-system removal are oracles: only which calls are made, with which arguments, and what they answer is modelled.
- Strings.Lower folds ASCII letters only; Python's `str.lower` also folds other scripts.
- Dbox.DropboxClient.UploadFile: requires a positive chunk size. DROPBOX_UPLOAD_CHUNK_SIZE defaults to 128 MiB (src/config.py:48-50), but a configured non-positive value is not rejected, and the read loop's behaviour for one is not modelled.
- Dbox.DropboxClient.ListFiles: requires the server to end the listing within the pages it has. A server that reports has_more forever is not modelled.
- Dbox.DropboxClient.UploadFile: the file size is a parameter and the file's bytes are not modelled, only the byte ranges each request carries.
- The Dropbox and Drive adapters are modelled on their own SDK traces. They are not proved to refine the abstract `Storage` contract, and their local-file effects are not modelled.
- Workflow.MainWorkflow: takes the selection's folders as strings, because the settings validator rejects a configuration in which they are absent. Which adapter the selection's client stands for is not linked to the `StorageClient` object the pass runs with.
- LegacyWorkflow.LegacyMainWorkflow: the token fallback of main.py:52-80 is the same as the newer driver's and is modelled once, by Workflow.DropboxClientFor. The older driver takes the resulting client, or null, as a parameter.
- LegacyWorkflow.LegacyMainWorkflow: main.py:52 reads DROPBOX_REFRESH_TOKEN_ENV, which the root config.py's Settings class does not declare. As shipped, every older pass therefore raises AttributeError there, before any client is built, any folder is created or anything is listed. The model takes the client as a parameter instead, and its null client ends the pass quietly with NoClient.
- LegacyWorkflow.LegacyMainWorkflow: a folder-creation error escapes the older pass; the model reports it as FolderCheckFailed, the same end the newer driver reaches when it catches a verification error.
- Config.LoggedSettings: the dump is a parameter; which settings pydantic's model_dump lists is not modelled.
- A failed build may leave a partial PDF on disk; the model assumes a failed build writes no file.

## Findings

| source | as written | input that shows it | evidently intended | confidence | as-written member | corrected member |
|---|---|---|---|---|---|---|
| src/dbox.py:113-120 | the session is opened with the first chunk and the loop runs only while bytes remain, so a file of exactly one chunk is never finished | file_size == chunk_size | a session upload is committed by exactly one finish | not executed | DboxUpload.ExactChunkNeverFinishes | DboxUpload.CorrectedPlanWellFormed |
| src/dbox.py:113-127 | the "last chunk" test runs after the read, so with more than two chunks a finish is sent one chunk early and then again, the second carrying the first's offset | file_size == 2 * chunk_size + 1 | exactly one finish, each request's offset equal to the bytes already sent | not executed | DboxUpload.MoreThanTwoChunksFinishesTwice | Dbox.DropboxClient.UploadFileCorrected |
| src/gdrive.py:107 | after the loop, the last prefix is overwritten with folder_id, the id of the last segment that was not cached | cache {"a/b": B}, folder_path "a/b/" | each prefix keeps the id of its own folder | not executed | GoogleDrive.AsWrittenOverwritesCachedPrefix | GoogleDrive.CorrectedCachesEveryPrefix |
| src/gdrive.py:107 | when every segment is served from the cache, folder_id is never assigned and reading it raises UnboundLocalError | cache {"a": A}, folder_path "/a" | the cached id is returned | not executed | GoogleDrive.AsWrittenUnboundWhenAllCached | GoogleDrive.GoogleDriveClient.EnsureFolderPathExistsCorrected |
| src/main.py:189-191 | the driver passes failed_path + "/" + name as the target folder, and move_file appends the file's base name again, so the quarantined file lands at failed/name/name | failed_path "/failed", entry name "a.pdf": the target is "/failed/a.pdf/a.pdf" | the file lands directly in the failed folder, at failed/name | not executed | Dbox.QuarantineLandsInSubfolder | Dbox.CorrectedQuarantineTarget |
| src/config.py:135-139 | settings are masked by name only, and GDRIVE_CREDENTIALS_JSON, which holds the Drive client secret (src/gdrive.py:25-27), contains none of "key", "secret" or "token" | GDRIVE_CREDENTIALS_JSON set to a client JSON: its value is logged in clear | the client credentials are logged masked | not executed | Config.CredentialsLoggedInClear | Config.SensitiveNamesIncludeCredentials |
